/**
 * `GET` and `PUT /api/settings`: the single settings record, created with
 * defaults the first time it is read or written, and updated by a partial
 * patch in which only the supplied fields change.
 */
module SettingsRoute {
  import opened Wrappers
  import opened Text
  import opened Http

  /** The stored record, without its id and timestamps. */
  datatype Settings = Settings(
    defaultQuality: string,
    defaultFormat: string,
    autoRename: bool,
    downloadPath: string,
    darkMode: bool)

  /** A `PUT` body: each field is `None` when the body does not have it. */
  datatype Patch = Patch(
    defaultQuality: Option<string>,
    defaultFormat: Option<string>,
    autoRename: Option<bool>,
    downloadPath: Option<string>,
    darkMode: Option<bool>)

  const EmptyPatch := Patch(None, None, None, None, None)

  const FetchFailed := "Failed to fetch settings"
  const UpdateFailed := "Failed to update settings"

  /**
   * The record `GET` creates. It does not name `darkMode`, which takes the
   * column's default, `darkModeDefault`.
   */
  function Defaults(darkModeDefault: bool): Settings {
    Settings("best", "mp4", true, "/downloads", darkModeDefault)
  }

  /**
   * The record `PUT` creates: the string fields fall back on their defaults
   * when missing or empty (`||`), the flags only when missing (`??`).
   */
  function Created(p: Patch): (s: Settings)
    ensures s.defaultQuality != [] && s.defaultFormat != [] && s.downloadPath != []
  {
    Settings(
      OrElse(p.defaultQuality, "best"),
      OrElse(p.defaultFormat, "mp4"),
      p.autoRename.GetOr(true),
      OrElse(p.downloadPath, "/downloads"),
      p.darkMode.GetOr(false))
  }

  /** The update of an existing record: the supplied fields, and the old values of the rest. */
  function Patched(s: Settings, p: Patch): Settings {
    Settings(
      p.defaultQuality.GetOr(s.defaultQuality),
      p.defaultFormat.GetOr(s.defaultFormat),
      p.autoRename.GetOr(s.autoRename),
      p.downloadPath.GetOr(s.downloadPath),
      p.darkMode.GetOr(s.darkMode))
  }

  /** What a successful `PUT` leaves in the store. */
  function AfterPut(record: Option<Settings>, p: Patch): Settings {
    match record
    case None => Created(p)
    case Some(s) => Patched(s, p)
  }

  /**
   * The store, seen through `findFirst`: the record it answers, if any.
   * Each handler runs here as one atomic step. In the source, a handler
   * suspends between `findFirst` and `create`, so two first requests served
   * at once can both find no record and create two.
   */
  class SettingsStore {
    var record: Option<Settings>
    /** The column default of `darkMode`. */
    const darkModeDefault: bool

    constructor(initial: Option<Settings>, darkModeDefault: bool)
      ensures record == initial && this.darkModeDefault == darkModeDefault
    {
      record := initial;
      this.darkModeDefault := darkModeDefault;
    }

    /**
     * `GET`: the record, created with the defaults when there is none.
     * `storeFails` stands for a store call that throws; the store is then
     * left as it was.
     */
    method Get(storeFails: bool) returns (r: Response<Settings>)
      modifies this
      ensures storeFails ==> r == Fail(ServerError, FetchFailed) && record == old(record)
      ensures !storeFails ==> record == Some(old(record).GetOr(Defaults(darkModeDefault))) && r == Ok(record.value)
    {
      if storeFails {
        return Fail(ServerError, FetchFailed);
      }
      if record.None? {
        record := Some(Defaults(darkModeDefault));
      }
      r := Ok(record.value);
    }

    /**
     * `PUT`: creates the record from the patch when there is none, and
     * patches it otherwise. A body that is not JSON, or a store call that
     * throws, answers 500 and leaves the store as it was.
     */
    method Put(body: Body<Patch>, storeFails: bool) returns (r: Response<Settings>)
      modifies this
      ensures body.Malformed? || storeFails ==> r == Fail(ServerError, UpdateFailed) && record == old(record)
      ensures body.Parsed? && !storeFails ==>
        record == Some(AfterPut(old(record), body.fields)) && r == Ok(record.value)
    {
      if body.Malformed? || storeFails {
        return Fail(ServerError, UpdateFailed);
      }
      var p := body.fields;
      if record.None? {
        record := Some(Created(p));
      } else {
        record := Some(Patched(record.value, p));
      }
      r := Ok(record.value);
    }
  }

  // ---------------------------------------------------------------------------
  // What the patch promises

  /** An update changes exactly the supplied fields, to the supplied values. */
  lemma PatchedChangesSuppliedFields(s: Settings, p: Patch)
    ensures var t := Patched(s, p);
      && (if p.defaultQuality.Some? then t.defaultQuality == p.defaultQuality.value else t.defaultQuality == s.defaultQuality)
      && (if p.defaultFormat.Some? then t.defaultFormat == p.defaultFormat.value else t.defaultFormat == s.defaultFormat)
      && (if p.autoRename.Some? then t.autoRename == p.autoRename.value else t.autoRename == s.autoRename)
      && (if p.downloadPath.Some? then t.downloadPath == p.downloadPath.value else t.downloadPath == s.downloadPath)
      && (if p.darkMode.Some? then t.darkMode == p.darkMode.value else t.darkMode == s.darkMode)
  {
  }

  /** An empty patch leaves the record as it is. */
  lemma PatchedEmpty(s: Settings)
    ensures Patched(s, EmptyPatch) == s
  {
  }

  /** Applying the same patch twice is applying it once. */
  lemma PatchedIdempotent(s: Settings, p: Patch)
    ensures Patched(Patched(s, p), p) == Patched(s, p)
  {
  }

  /** A later patch wins on the fields it supplies. */
  lemma PatchedTwice(s: Settings, p: Patch, q: Patch)
    ensures Patched(Patched(s, p), q) == Patched(s, Patch(
      if q.defaultQuality.Some? then q.defaultQuality else p.defaultQuality,
      if q.defaultFormat.Some? then q.defaultFormat else p.defaultFormat,
      if q.autoRename.Some? then q.autoRename else p.autoRename,
      if q.downloadPath.Some? then q.downloadPath else p.downloadPath,
      if q.darkMode.Some? then q.darkMode else p.darkMode))
  {
  }

  /** Creating keeps a supplied `false` flag, and replaces a supplied empty string by the default. */
  lemma CreatedFallbacks(p: Patch)
    ensures p.autoRename == Some(false) ==> !Created(p).autoRename
    ensures p.darkMode == Some(false) ==> !Created(p).darkMode
    ensures p.defaultQuality == Some("") ==> Created(p).defaultQuality == "best"
    ensures p.defaultFormat == Some("") ==> Created(p).defaultFormat == "mp4"
    ensures p.downloadPath == Some("") ==> Created(p).downloadPath == "/downloads"
  {
  }

  /**
   * Unless a string field is supplied empty, creating from a patch is
   * patching the defaults (with `darkMode` off).
   */
  lemma CreatedIsPatchedDefaults(p: Patch)
    requires p.defaultQuality != Some("") && p.defaultFormat != Some("") && p.downloadPath != Some("")
    ensures Created(p) == Patched(Defaults(false), p)
  {
  }

  /**
   * So repeating a `PUT` changes nothing the second time, unless the first
   * created the record from a body with an empty string field.
   */
  lemma AfterPutRepeated(record: Option<Settings>, p: Patch)
    requires record.Some? || (p.defaultQuality != Some("") && p.defaultFormat != Some("") && p.downloadPath != Some(""))
    ensures AfterPut(Some(AfterPut(record, p)), p) == AfterPut(record, p)
  {
    if record.None? {
      CreatedIsPatchedDefaults(p);
      PatchedIdempotent(Defaults(false), p);
    }
  }

  /** A `PUT` that creates the record from `{defaultQuality: ""}` is not repeatable. */
  lemma AfterPutCreateNotRepeatable()
    ensures var p := EmptyPatch.(defaultQuality := Some(""));
      AfterPut(Some(AfterPut(None, p)), p) != AfterPut(None, p)
  {
    var p := EmptyPatch.(defaultQuality := Some(""));
    assert AfterPut(None, p).defaultQuality == "best";
    assert AfterPut(Some(AfterPut(None, p)), p).defaultQuality == "";
  }
}
