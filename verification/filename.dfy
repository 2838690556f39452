/**
 * `generateFilename`: a file name suggested from a title and a format.
 * Characters that file systems refuse are dropped, every run of white space
 * becomes one space, the ends are trimmed, the name is cut to 100
 * characters, and the extension is appended.
 */
module Filename {
  import opened Text

  /** The characters removed from titles: `< > : " / \ | ? *`. */
  predicate IsForbidden(c: char) {
    c == '<' || c == '>' || c == ':' || c == '"' || c == '/' || c == '\\' || c == '|' || c == '?' || c == '*'
  }

  const MaxName := 100

  /** `replace(/[<>:"/\\|?*]/g, '')`. */
  function StripForbidden(s: string): (r: string)
    ensures forall i :: 0 <= i < |r| ==> !IsForbidden(r[i])
  {
    if s == [] then []
    else (if IsForbidden(s[0]) then [] else [s[0]]) + StripForbidden(s[1..])
  }

  /** One character is dropped when forbidden and kept otherwise. */
  lemma StripForbiddenChar(c: char)
    ensures StripForbidden([c]) == if IsForbidden(c) then [] else [c]
  {
    assert [c][1..] == [];
  }

  /**
   * Stripping keeps order: stripping a concatenation strips each part, so
   * with `StripForbiddenChar` every other character survives in place.
   */
  lemma {:induction false} StripForbiddenAppend(a: string, b: string)
    ensures StripForbidden(a + b) == StripForbidden(a) + StripForbidden(b)
  {
    if a == [] {
      assert a + b == b;
    } else {
      assert (a + b)[0] == a[0];
      assert (a + b)[1..] == a[1..] + b;
      StripForbiddenAppend(a[1..], b);
    }
  }

  /** `replace(/\s+/g, ' ')`: every maximal run of `\s` becomes one space. */
  function CollapseSpace(s: string): (r: string)
    decreases |s|
  {
    if s == [] then []
    else if IsSpace(s[0]) then
      TrimStartShape(s);
      " " + CollapseSpace(TrimStart(s))
    else [s[0]] + CollapseSpace(s[1..])
  }

  /** Trimming the start of `a + b` trims into `b` only when `a` is all white space. */
  lemma {:induction false} TrimStartAppend(a: string, b: string)
    ensures AllSpace(a) ==> TrimStart(a + b) == TrimStart(b)
    ensures !AllSpace(a) ==> TrimStart(a + b) == TrimStart(a) + b
    decreases |a|
  {
    if a == [] {
      assert a + b == b;
    } else if IsSpace(a[0]) {
      assert (a + b)[1..] == a[1..] + b;
      assert AllSpace(a) <==> AllSpace(a[1..]) by {
        if AllSpace(a[1..]) {
          forall i | 0 <= i < |a| ensures IsSpace(a[i]) {
            if i > 0 { assert a[i] == a[1..][i - 1]; }
          }
        }
      }
      TrimStartAppend(a[1..], b);
    } else {
      assert (a + b)[0] == a[0];
    }
  }

  /** A non-empty run of white space collapses to one space. */
  lemma CollapseSpaceRun(w: string)
    requires w != [] && AllSpace(w)
    ensures CollapseSpace(w) == " "
  {
    TrimStartAppend(w, []);
    assert w + [] == w;
  }

  /** A text without white space is left as it is. */
  lemma {:induction false} CollapseSpaceNoSpace(u: string)
    requires forall i :: 0 <= i < |u| ==> !IsSpace(u[i])
    ensures CollapseSpace(u) == u
    decreases |u|
  {
    if u != [] {
      CollapseSpaceNoSpace(u[1..]);
      assert u == [u[0]] + u[1..];
    }
  }

  /**
   * Collapsing works piece by piece when the pieces meet at a character
   * that is not white space, so no run is split between them.
   */
  lemma {:induction false} CollapseSpaceAppend(a: string, b: string)
    requires (a != [] && !IsSpace(a[|a| - 1])) || (b != [] && !IsSpace(b[0]))
    ensures CollapseSpace(a + b) == CollapseSpace(a) + CollapseSpace(b)
    decreases |a|
  {
    if a == [] {
      assert a + b == b;
    } else if !IsSpace(a[0]) {
      assert (a + b)[0] == a[0];
      assert (a + b)[1..] == a[1..] + b;
      if a[1..] == [] {
        assert a[1..] + b == b;
      } else {
        assert a[1..][|a[1..]| - 1] == a[|a| - 1];
        CollapseSpaceAppend(a[1..], b);
      }
    } else {
      CollapseSpaceSpaceFirst(a, b);
    }
  }

  /** The case of `CollapseSpaceAppend` where `a` starts with white space. */
  lemma {:induction false} CollapseSpaceSpaceFirst(a: string, b: string)
    requires a != [] && IsSpace(a[0])
    requires (!IsSpace(a[|a| - 1])) || (b != [] && !IsSpace(b[0]))
    ensures CollapseSpace(a + b) == CollapseSpace(a) + CollapseSpace(b)
    decreases |a|, 0
  {
    if AllSpace(a) {
      assert (a + b)[0] == a[0];
      TrimStartAppend(a, b);
      CollapseSpaceRun(a);
      assert TrimStart(b) == b;
    } else {
      CollapseSpaceThroughTrim(a, b);
      CollapseSpaceAppend(TrimStart(a), b);
    }
  }

  /** A leading run of white space before some other character collapses to one space. */
  lemma CollapseSpaceThroughTrim(a: string, b: string)
    requires a != [] && IsSpace(a[0]) && !AllSpace(a)
    ensures var t := TrimStart(a);
      && t != [] && |t| < |a| && t[|t| - 1] == a[|a| - 1]
      && CollapseSpace(a) == " " + CollapseSpace(t)
      && CollapseSpace(a + b) == " " + CollapseSpace(t + b)
  {
    assert (a + b)[0] == a[0];
    TrimStartAppend(a, b);
    TrimStartShape(a);
  }

  /** Two words separated by any run of white space are joined by one space. */
  lemma CollapseSpaceWords(u: string, w: string, v: string)
    requires forall i :: 0 <= i < |u| ==> !IsSpace(u[i])
    requires forall i :: 0 <= i < |v| ==> !IsSpace(v[i])
    requires u != [] && v != [] && w != [] && AllSpace(w)
    ensures CollapseSpace(u + w + v) == u + " " + v
  {
    CollapseSpaceAppend(u + w, v);
    CollapseSpaceAppend(u, w);
    CollapseSpaceNoSpace(u);
    CollapseSpaceNoSpace(v);
    CollapseSpaceRun(w);
  }

  /** A text without forbidden characters is left as it is. */
  lemma {:induction false} StripForbiddenNone(s: string)
    requires forall i :: 0 <= i < |s| ==> !IsForbidden(s[i])
    ensures StripForbidden(s) == s
    decreases |s|
  {
    if s != [] {
      StripForbiddenNone(s[1..]);
      assert s == [s[0]] + s[1..];
    }
  }

  /**
   * A title of two words apart by white space, short enough and free of
   * forbidden characters, is named with the two words and one space.
   */
  lemma SanitizedNameWords(u: string, w: string, v: string)
    requires forall i :: 0 <= i < |u| ==> !IsSpace(u[i]) && !IsForbidden(u[i])
    requires forall i :: 0 <= i < |v| ==> !IsSpace(v[i]) && !IsForbidden(v[i])
    requires u != [] && v != [] && w != [] && AllSpace(w)
    requires |u| + 1 + |v| <= MaxName
    ensures SanitizedName(u + w + v) == u + " " + v
  {
    var s := u + w + v;
    forall i | 0 <= i < |s| ensures !IsForbidden(s[i]) {
      if i < |u| {
        assert s[i] == u[i];
      } else if i < |u| + |w| {
        assert s[i] == w[i - |u|];
      } else {
        assert s[i] == v[i - |u| - |w|];
      }
    }
    StripForbiddenNone(s);
    CollapseSpaceWords(u, w, v);
    var x := u + " " + v;
    assert x[0] == u[0] && x[|x| - 1] == v[|v| - 1];
    assert TrimStart(x) == x;
    assert TrimEnd(x) == x;
  }

  /** No two neighbouring characters are both white space, and the only white space is ` `. */
  predicate SingleSpaced(s: string) {
    && (forall i :: 0 <= i < |s| ==> IsSpace(s[i]) ==> s[i] == ' ')
    && (forall i :: 0 <= i < |s| - 1 ==> !(IsSpace(s[i]) && IsSpace(s[i + 1])))
  }

  /** The extension a format is saved with. */
  function Extension(format: string): string {
    if format == "mp3" || format == "audio" then "mp3" else format
  }

  /** The name part: sanitised, collapsed, trimmed and cut. */
  function SanitizedName(title: string): string {
    var t := Trim(CollapseSpace(StripForbidden(title)));
    if |t| <= MaxName then t else t[..MaxName]
  }

  /** `generateFilename`. */
  function GenerateFilename(title: string, format: string): string {
    SanitizedName(title) + "." + Extension(format)
  }

  // ---------------------------------------------------------------------------
  // What the name promises

  /** The suggested name is the sanitised name, a dot, and the format's extension. */
  lemma GenerateFilenameEnds(title: string, format: string)
    ensures var r := GenerateFilename(title, format); var ext := Extension(format);
      && |r| == |SanitizedName(title)| + 1 + |ext|
      && r[..|SanitizedName(title)|] == SanitizedName(title)
      && r[|SanitizedName(title)|] == '.'
      && r[|r| - |ext|..] == ext
  {
  }

  /** Audio formats are saved as mp3, every other format under its own name. */
  lemma ExtensionOf(format: string)
    ensures Extension(format) == "mp3" <==> format == "mp3" || format == "audio"
    ensures format != "mp3" && format != "audio" ==> Extension(format) == format
  {
  }

  /**
   * The name part has at most 100 characters, none of them forbidden, no
   * white space other than single spaces, and none at its start. (Its end
   * is trimmed before the cut, so a name cut at 100 characters may end in a
   * space.)
   */
  lemma SanitizedNameShape(title: string)
    ensures var n := SanitizedName(title);
      && |n| <= MaxName
      && (forall i :: 0 <= i < |n| ==> !IsForbidden(n[i]))
      && SingleSpaced(n)
      && (n != [] ==> !IsSpace(n[0]))
  {
    var s := StripForbidden(title);
    var c := CollapseSpace(s);
    CollapseSpaceShape(s);
    var t := Trim(c);
    TrimInfix(c);
    TrimEnds(c);
    var n := SanitizedName(title);
    assert n == t[..|n|];
  }

  /** Collapsing adds only spaces and leaves neighbouring white space nowhere. */
  lemma {:induction false} CollapseSpaceShape(s: string)
    ensures var r := CollapseSpace(s);
      && SingleSpaced(r)
      && (forall i :: 0 <= i < |r| ==> !IsSpace(r[i]) ==> r[i] in s)
      && (r != [] && IsSpace(r[0]) ==> s != [] && IsSpace(s[0]))
    decreases |s|
  {
    if s != [] {
      if IsSpace(s[0]) {
        TrimStartShape(s);
        var t := TrimStart(s);
        CollapseSpaceShape(t);
        var rt := CollapseSpace(t);
        assert CollapseSpace(s) == " " + rt;
        forall i | 0 <= i < |rt| && !IsSpace(rt[i]) ensures rt[i] in s {
          assert rt[i] in t;
          assert t == s[|s| - |t|..];
        }
      } else {
        CollapseSpaceShape(s[1..]);
        var rt := CollapseSpace(s[1..]);
        assert CollapseSpace(s) == [s[0]] + rt;
        forall i | 0 <= i < |rt| && !IsSpace(rt[i]) ensures rt[i] in s {
          assert rt[i] in s[1..];
        }
      }
    }
  }

  /** `trim` keeps a middle stretch `s[a..a + |Trim(s)|]` of the text. */
  lemma TrimInfix(s: string)
    ensures SingleSpaced(s) ==> SingleSpaced(Trim(s))
    ensures forall i :: 0 <= i < |Trim(s)| ==> Trim(s)[i] in s
  {
    var u := TrimStart(s);
    TrimStartShape(s);
    TrimEndShape(u);
    var t := TrimEnd(u);
    var a := |s| - |u|;
    assert forall i :: 0 <= i < |t| ==> t[i] == s[a + i];
  }

  /** A forbidden character never survives into the suggested name. */
  lemma NoForbiddenCharacter(title: string, format: string, i: nat)
    requires i < |SanitizedName(title)|
    ensures !IsForbidden(GenerateFilename(title, format)[i])
  {
    SanitizedNameShape(title);
  }

  // ---------------------------------------------------------------------------
  // What the name keeps of the title

  /** The text without its white space. */
  function Squeeze(s: string): (r: string)
    ensures forall i :: 0 <= i < |r| ==> !IsSpace(r[i])
  {
    if s == [] then [] else (if IsSpace(s[0]) then [] else [s[0]]) + Squeeze(s[1..])
  }

  lemma {:induction false} SqueezeAppend(a: string, b: string)
    ensures Squeeze(a + b) == Squeeze(a) + Squeeze(b)
  {
    if a == [] {
      assert a + b == b;
    } else {
      assert (a + b)[0] == a[0];
      assert (a + b)[1..] == a[1..] + b;
      SqueezeAppend(a[1..], b);
    }
  }

  lemma {:induction false} SqueezeTrimStart(s: string)
    ensures Squeeze(TrimStart(s)) == Squeeze(s)
    decreases |s|
  {
    if s != [] && IsSpace(s[0]) {
      SqueezeTrimStart(s[1..]);
    }
  }

  lemma {:induction false} SqueezeTrimEnd(s: string)
    ensures Squeeze(TrimEnd(s)) == Squeeze(s)
    decreases |s|
  {
    if s != [] && IsSpace(s[|s| - 1]) {
      SqueezeTrimEnd(s[..|s| - 1]);
      SqueezeAppend(s[..|s| - 1], [s[|s| - 1]]);
      assert s[..|s| - 1] + [s[|s| - 1]] == s;
    }
  }

  /** Collapsing white space keeps every other character, in order. */
  lemma {:induction false} SqueezeCollapse(s: string)
    ensures Squeeze(CollapseSpace(s)) == Squeeze(s)
    decreases |s|
  {
    if s != [] {
      if IsSpace(s[0]) {
        TrimStartShape(s);
        SqueezeCollapse(TrimStart(s));
        SqueezeTrimStart(s);
        SqueezeAppend(" ", CollapseSpace(TrimStart(s)));
      } else {
        SqueezeCollapse(s[1..]);
        SqueezeAppend([s[0]], CollapseSpace(s[1..]));
      }
    }
  }

  /**
   * Apart from white space, the name is the beginning of the title with the
   * forbidden characters dropped, and all of it when that fits in 100
   * characters.
   */
  lemma SanitizedNameKeepsTitle(title: string)
    ensures var kept := Squeeze(StripForbidden(title)); var n := Squeeze(SanitizedName(title));
      && |n| <= |kept| && kept[..|n|] == n
      && (|Trim(CollapseSpace(StripForbidden(title)))| <= MaxName ==> n == kept)
  {
    var c := CollapseSpace(StripForbidden(title));
    SqueezeCollapse(StripForbidden(title));
    SqueezeTrimStart(c);
    SqueezeTrimEnd(TrimStart(c));
    var t := Trim(c);
    if |t| > MaxName {
      SqueezeAppend(t[..MaxName], t[MaxName..]);
      assert t[..MaxName] + t[MaxName..] == t;
    }
  }
}
