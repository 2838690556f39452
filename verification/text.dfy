/**
 * The JavaScript string operations that the downloader's core relies on:
 * `includes`, `toLowerCase`, `split`, `trim`, `replace` of a single
 * character, the regular-expression character classes `\s` and `.`, and the
 * decimal rendering of an integer in a template string.
 */
module Text {
  import opened Wrappers

  /** The line terminators of ECMAScript: the characters `.` does not match. */
  predicate IsLineTerminator(c: char) {
    c == '\n' || c == '\r' || c == '\U{2028}' || c == '\U{2029}'
  }

  /**
   * ECMAScript WhiteSpace and LineTerminator: the class `\s`, and the
   * characters `String.prototype.trim` removes.
   */
  predicate IsSpace(c: char) {
    || IsLineTerminator(c)
    || c == '\t' || c == '\U{B}' || c == '\U{C}' || c == ' '
    || c == '\U{A0}' || c == '\U{1680}' || ('\U{2000}' <= c <= '\U{200A}')
    || c == '\U{202F}' || c == '\U{205F}' || c == '\U{3000}' || c == '\U{FEFF}'
  }

  /** A string value that JavaScript counts as true: present and non-empty. */
  predicate Truthy(s: Option<string>) {
    s.Some? && s.value != []
  }

  /** JavaScript's `s || d` for an optional string. */
  function OrElse(s: Option<string>, d: string): (r: string)
    ensures r == d || (s.Some? && r == s.value)
    ensures r != [] <==> Truthy(s) || d != []
    ensures Truthy(s) ==> r == s.value
  {
    if Truthy(s) then s.value else d
  }

  // ---------------------------------------------------------------------------
  // includes

  /** `p` occurs in `s` starting at index `i`. */
  predicate OccursAt(s: string, p: string, i: nat) {
    i + |p| <= |s| && s[i..i + |p|] == p
  }

  /** `s.includes(p)`: tries each start position from the left. */
  predicate Contains(s: string, p: string)
    decreases |s|
  {
    if |p| > |s| then false
    else if s[..|p|] == p then true
    else s != [] && Contains(s[1..], p)
  }

  /** An occurrence after the first position is an occurrence in the tail. */
  lemma OccursAtTail(s: string, p: string, i: nat)
    requires s != [] && i >= 1
    ensures OccursAt(s, p, i) <==> OccursAt(s[1..], p, i - 1)
  {
    if i + |p| <= |s| {
      assert s[1..][i - 1..i - 1 + |p|] == s[i..i + |p|];
    }
  }

  /** `Contains` holds exactly when some start position carries `p`. */
  lemma {:induction false} ContainsIff(s: string, p: string)
    ensures Contains(s, p) <==> exists i: nat :: OccursAt(s, p, i)
    decreases |s|
  {
    if |p| > |s| {
    } else if s[..|p|] == p {
      assert OccursAt(s, p, 0);
    } else if s == [] {
    } else {
      ContainsIff(s[1..], p);
      if Contains(s[1..], p) {
        var i: nat :| OccursAt(s[1..], p, i);
        OccursAtTail(s, p, i + 1);
        assert OccursAt(s, p, i + 1);
      } else {
        forall i: nat | OccursAt(s, p, i) ensures false {
          assert i != 0;
          OccursAtTail(s, p, i);
        }
      }
    }
  }

  /** A text that occurs in a prefix or a suffix occurs in the whole. */
  lemma ContainsConcat(a: string, b: string, p: string)
    ensures Contains(a, p) ==> Contains(a + b, p)
    ensures Contains(b, p) ==> Contains(a + b, p)
  {
    ContainsIff(a, p);
    ContainsIff(b, p);
    ContainsIff(a + b, p);
    if Contains(a, p) {
      var i: nat :| OccursAt(a, p, i);
      assert (a + b)[i..i + |p|] == a[i..i + |p|];
      assert OccursAt(a + b, p, i);
    }
    if Contains(b, p) {
      var i: nat :| OccursAt(b, p, i);
      assert (a + b)[|a| + i..|a| + i + |p|] == b[i..i + |p|];
      assert OccursAt(a + b, p, |a| + i);
    }
  }

  /** `includes` of a one-character text is membership of that character. */
  lemma {:induction false} ContainsChar(s: string, c: char)
    ensures Contains(s, [c]) <==> c in s
    decreases |s|
  {
    if s != [] {
      ContainsChar(s[1..], c);
      assert s == [s[0]] + s[1..];
    }
  }

  /**
   * The first index at which `p` occurs in `s`, or -1 when it does not occur:
   * where a search for `p` from the left stops.
   */
  function Find(s: string, p: string): (k: int)
    ensures -1 <= k
    ensures k >= 0 <==> Contains(s, p)
    ensures k >= 0 ==> OccursAt(s, p, k)
    ensures forall j: nat :: j < k ==> !OccursAt(s, p, j)
    decreases |s|
  {
    if |p| > |s| then -1
    else if s[..|p|] == p then 0
    else if s == [] then -1
    else
      var k := Find(s[1..], p);
      assert forall j: nat :: 1 <= j < k + 1 ==> OccursAt(s, p, j) == OccursAt(s[1..], p, j - 1);
      if k < 0 then -1 else k + 1
  }

  // ---------------------------------------------------------------------------
  // toLowerCase

  /** `toLowerCase` on one character, for the ASCII letters. */
  function LowerChar(c: char): char {
    if 'A' <= c <= 'Z' then (c as int + 32) as char else c
  }

  /** A text without upper-case ASCII letters. */
  predicate IsLower(s: string) {
    forall i :: 0 <= i < |s| ==> !('A' <= s[i] <= 'Z')
  }

  /** `toLowerCase`, for the ASCII letters. */
  function ToLower(s: string): (r: string)
    ensures |r| == |s|
    ensures forall i :: 0 <= i < |s| ==> r[i] == LowerChar(s[i])
    ensures IsLower(r)
  {
    seq(|s|, i requires 0 <= i < |s| => LowerChar(s[i]))
  }

  /** Lower-casing twice changes nothing more. */
  lemma ToLowerIdempotent(s: string)
    ensures ToLower(ToLower(s)) == ToLower(s)
  {
  }

  // ---------------------------------------------------------------------------
  // split

  /** The index of the last `c` in `s`, or -1 when there is none. */
  function LastIndexOf(s: string, c: char): (k: int)
    ensures -1 <= k < |s|
    ensures k >= 0 ==> s[k] == c
    ensures forall j :: k < j < |s| ==> s[j] != c
    decreases |s|
  {
    if s == [] then -1
    else if s[|s| - 1] == c then |s| - 1
    else LastIndexOf(s[..|s| - 1], c)
  }

  /** A `c` with no `c` after it is the last one. */
  lemma LastIndexOfIs(s: string, c: char, i: nat)
    requires i < |s| && s[i] == c
    requires forall j :: i < j < |s| ==> s[j] != c
    ensures LastIndexOf(s, c) == i
  {
  }

  /** A character missing from a suffix is missing from every position of it. */
  lemma AbsentFromSuffix(s: string, suffix: string, c: char)
    requires |suffix| <= |s| && s[|s| - |suffix|..] == suffix && c !in suffix
    ensures forall j :: |s| - |suffix| <= j < |s| ==> s[j] != c
  {
    forall j | |s| - |suffix| <= j < |s|
      ensures s[j] != c
    {
      assert s[j] == suffix[j - (|s| - |suffix|)];
    }
  }

  /**
   * `s.split(c)` for a one-character separator: the pieces between the
   * occurrences of `c`, so one more piece than there are separators.
   * Defined from the right so that the last piece is easy to reason about.
   */
  function Split(s: string, c: char): (r: seq<string>)
    ensures |r| >= 1
    decreases |s|
  {
    var k := LastIndexOf(s, c);
    if k < 0 then [s] else Split(s[..k], c) + [s[k + 1..]]
  }

  /** The pieces joined back together with `c` between neighbours: `join(c)`. */
  function Join(pieces: seq<string>, c: char): string
    requires |pieces| >= 1
    decreases |pieces|
  {
    if |pieces| == 1 then pieces[0] else Join(pieces[..|pieces| - 1], c) + [c] + pieces[|pieces| - 1]
  }

  /** The text after the last `c` holds no `c`. */
  lemma AfterLastIndexOf(s: string, c: char)
    requires LastIndexOf(s, c) >= 0
    ensures c !in s[LastIndexOf(s, c) + 1..]
  {
    var k := LastIndexOf(s, c);
    var tail := s[k + 1..];
    forall j | 0 <= j < |tail| ensures tail[j] != c {
      assert tail[j] == s[k + 1 + j];
    }
  }

  /** No piece of `split` holds the separator. */
  lemma {:induction false} SplitPieces(s: string, c: char)
    ensures forall i :: 0 <= i < |Split(s, c)| ==> c !in Split(s, c)[i]
    decreases |s|
  {
    var k := LastIndexOf(s, c);
    var r := Split(s, c);
    if k < 0 {
      assert r == [s];
      assert c !in s;
    } else {
      SplitPieces(s[..k], c);
      AfterLastIndexOf(s, c);
      var ps := Split(s[..k], c);
      assert r == ps + [s[k + 1..]];
      forall i | 0 <= i < |r| ensures c !in r[i] {
        if i < |ps| {
          assert r[i] == ps[i];
        }
      }
    }
  }

  /** Joining the pieces of `split` with the separator gives the text back. */
  lemma {:induction false} SplitJoin(s: string, c: char)
    ensures Join(Split(s, c), c) == s
    decreases |s|
  {
    var k := LastIndexOf(s, c);
    if k >= 0 {
      SplitJoin(s[..k], c);
      var ps := Split(s[..k], c);
      var r := ps + [s[k + 1..]];
      assert Split(s, c) == r;
      assert r[..|r| - 1] == ps;
      assert s == s[..k] + [c] + s[k + 1..];
    }
  }

  /** `split` gives one piece more than there are separators. */
  lemma {:induction false} SplitCount(s: string, c: char)
    ensures |Split(s, c)| == multiset(s)[c] + 1
    decreases |s|
  {
    var k := LastIndexOf(s, c);
    if k < 0 {
      assert c !in s;
    } else {
      SplitCount(s[..k], c);
      AfterLastIndexOf(s, c);
      assert s == s[..k] + [c] + s[k + 1..];
      assert multiset(s) == multiset(s[..k]) + multiset([c]) + multiset(s[k + 1..]);
    }
  }

  /** A text without `c` has no last `c`. */
  lemma LastIndexOfAbsent(s: string, c: char)
    requires c !in s
    ensures LastIndexOf(s, c) == -1
  {
  }

  /** The last `c` of `a + [c] + rest`, when `a` holds none: the one of `rest`, or the one after `a`. */
  lemma LastIndexOfFront(a: string, rest: string, c: char)
    requires c !in a
    ensures var k := LastIndexOf(rest, c);
      LastIndexOf(a + [c] + rest, c) == if k < 0 then |a| else |a| + 1 + k
  {
    var s := a + [c] + rest;
    var k := LastIndexOf(rest, c);
    var i := if k < 0 then |a| else |a| + 1 + k;
    assert s[i] == c;
    forall j | i < j < |s| ensures s[j] != c {
      assert s[j] == rest[j - |a| - 1];
    }
    LastIndexOfIs(s, c, i);
  }

  /** A first piece without `c` is the first piece of `split`, and the rest splits on its own. */
  lemma {:induction false} SplitFront(a: string, rest: string, c: char)
    requires c !in a
    ensures Split(a + [c] + rest, c) == [a] + Split(rest, c)
    decreases |rest|
  {
    var k := LastIndexOf(rest, c);
    if k < 0 {
      SplitFrontLast(a, rest, c);
    } else {
      SplitFront(a, rest[..k], c);
      SplitFrontStep(a, rest, c);
    }
  }

  /** The step of `SplitFront` past the last `c` of `rest`. */
  lemma SplitFrontStep(a: string, rest: string, c: char)
    requires c !in a && LastIndexOf(rest, c) >= 0
    requires var k := LastIndexOf(rest, c);
      Split(a + [c] + rest[..k], c) == [a] + Split(rest[..k], c)
    ensures Split(a + [c] + rest, c) == [a] + Split(rest, c)
  {
    var k := LastIndexOf(rest, c);
    var s := a + [c] + rest;
    LastIndexOfFront(a, rest, c);
    FrontSlices(a, c, rest, k);
    SplitAt(s, c, |a| + 1 + k, a + [c] + rest[..k], rest[k + 1..]);
    SplitAt(rest, c, k, rest[..k], rest[k + 1..]);
    ConsSnoc(a, Split(rest[..k], c), rest[k + 1..]);
  }

  lemma ConsSnoc<T>(x: T, xs: seq<T>, y: T)
    ensures [x] + xs + [y] == [x] + (xs + [y])
  {
  }

  /** `Split` past its last separator, at index `i`. */
  lemma SplitAt(s: string, c: char, i: int, before: string, after: string)
    requires LastIndexOf(s, c) == i && 0 <= i < |s|
    requires s[..i] == before && s[i + 1..] == after
    ensures Split(s, c) == Split(before, c) + [after]
  {
  }

  /** Slicing `a + [c] + rest` around position `k` of `rest`. */
  lemma FrontSlices(a: string, c: char, rest: string, k: nat)
    requires k < |rest|
    ensures (a + [c] + rest)[..|a| + 1 + k] == a + [c] + rest[..k]
    ensures (a + [c] + rest)[|a| + 1 + k + 1..] == rest[k + 1..]
  {
  }

  /** The case of `SplitFront` where `rest` holds no `c`. */
  lemma SplitFrontLast(a: string, rest: string, c: char)
    requires c !in a && LastIndexOf(rest, c) < 0
    ensures Split(a + [c] + rest, c) == [a, rest]
  {
    var s := a + [c] + rest;
    LastIndexOfFront(a, rest, c);
    LastIndexOfAbsent(a, c);
    assert s[..|a|] == a && s[|a| + 1..] == rest;
  }

  /** Two first pieces without `c` are the first two pieces of `split`. */
  lemma SplitTwoFront(a: string, b: string, rest: string, c: char)
    requires c !in a && c !in b
    ensures Split(a + [c] + b + [c] + rest, c) == [a, b] + Split(rest, c)
  {
    var tail := b + [c] + rest;
    assert a + [c] + b + [c] + rest == a + [c] + tail;
    SplitFront(a, tail, c);
    SplitFront(b, rest, c);
  }

  /** The first piece of `split`: the text up to its first `c`. */
  lemma SplitFirst(s: string, c: char)
    ensures var k := IndexOf(s, c); Split(s, c)[0] == if k < 0 then s else s[..k]
  {
    var k := IndexOf(s, c);
    if k < 0 {
      assert c !in s;
      LastIndexOfAbsent(s, c);
    } else {
      assert c !in s[..k];
      assert s == s[..k] + [c] + s[k + 1..];
      SplitFront(s[..k], s[k + 1..], c);
    }
  }

  /** The pieces of `split` that are non-empty strings: `.filter(Boolean)`. */
  function NonEmpty(pieces: seq<string>): (r: seq<string>)
    decreases |pieces|
  {
    if pieces == [] then []
    else
      var init := NonEmpty(pieces[..|pieces| - 1]);
      if pieces[|pieces| - 1] == [] then init else init + [pieces[|pieces| - 1]]
  }

  /** `.pop()`: the last element, or nothing for an empty array. */
  function Last(xs: seq<string>): Option<string> {
    if xs == [] then None else Some(xs[|xs| - 1])
  }

  /** `s.split('\n').filter(Boolean).pop()`. */
  function LastNonEmptyLine(s: string): Option<string> {
    Last(NonEmpty(Split(s, '\n')))
  }

  /** A text made of newlines only. */
  predicate AllNewlines(s: string) {
    forall i :: 0 <= i < |s| ==> s[i] == '\n'
  }

  /**
   * `l` stands in `s` at index `a` as its last line: a newline (or nothing)
   * precedes it and only newlines follow it.
   */
  predicate LineAt(s: string, l: string, a: nat) {
    && a + |l| <= |s| && s[a..a + |l|] == l
    && (a == 0 || s[a - 1] == '\n')
    && AllNewlines(s[a + |l|..])
  }

  /** `l` is the last non-empty line of `s`. */
  ghost predicate IsLastLine(s: string, l: string) {
    l != [] && '\n' !in l && exists a: nat :: LineAt(s, l, a)
  }

  /** `s` without its trailing newlines. */
  function DropTrailingNewlines(s: string): (t: string)
    ensures |t| <= |s| && s[..|t|] == t
    ensures t == [] || t[|t| - 1] != '\n'
    decreases |s|
  {
    if s != [] && s[|s| - 1] == '\n' then DropTrailingNewlines(s[..|s| - 1]) else s
  }

  /** What `DropTrailingNewlines` drops is newlines. */
  lemma {:induction false} DropTrailingNewlinesDropsNewlines(s: string)
    ensures AllNewlines(s[|DropTrailingNewlines(s)|..])
    decreases |s|
  {
    if s != [] && s[|s| - 1] == '\n' {
      var s' := s[..|s| - 1];
      DropTrailingNewlinesDropsNewlines(s');
      var n := |DropTrailingNewlines(s')|;
      assert s[n..] == s'[n..] + ['\n'];
      AllNewlinesSnoc(s'[n..]);
    }
  }

  /**
   * `split`, `filter(Boolean)` and `pop` find the text after the last newline
   * once the trailing newlines are set aside, and nothing when only newlines
   * are left.
   */
  lemma {:induction false} LastNonEmptyLineAfterLastNewline(s: string)
    ensures var t := DropTrailingNewlines(s);
      LastNonEmptyLine(s) == if t == [] then None else Some(t[LastIndexOf(t, '\n') + 1..])
    decreases |s|
  {
    if s != [] && s[|s| - 1] == '\n' {
      LastNonEmptyLineAfterLastNewline(s[..|s| - 1]);
      SplitNewlineEnded(s);
      NonEmptyDropsEmpty(Split(s[..|s| - 1], '\n'));
    } else if LastIndexOf(s, '\n') < 0 {
      SplitWithoutSeparator(s, '\n');
    } else {
      SplitAtLastSeparator(s, '\n');
    }
  }

  lemma SplitWithoutSeparator(s: string, c: char)
    requires LastIndexOf(s, c) < 0
    ensures Last(NonEmpty(Split(s, c))) == if s == [] then None else Some(s)
  {
    assert Split(s, c) == [s];
    assert [s][..0] == [];
  }

  lemma SplitAtLastSeparator(s: string, c: char)
    requires LastIndexOf(s, c) >= 0 && s[|s| - 1] != c
    ensures var k := LastIndexOf(s, c); Last(NonEmpty(Split(s, c))) == Some(s[k + 1..])
  {
    var k := LastIndexOf(s, c);
    assert Split(s, c) == Split(s[..k], c) + [s[k + 1..]];
    assert s[k + 1..] != [];
  }

  lemma SplitNewlineEnded(s: string)
    requires |s| >= 1 && s[|s| - 1] == '\n'
    ensures Split(s, '\n') == Split(s[..|s| - 1], '\n') + [[]]
  {
    assert s[|s|..] == [];
  }

  lemma NonEmptyDropsEmpty(ps: seq<string>)
    ensures NonEmpty(ps + [[]]) == NonEmpty(ps)
  {
    assert (ps + [[]])[..|ps|] == ps;
  }

  lemma AllNewlinesSnoc(s: string)
    ensures AllNewlines(s + ['\n']) <==> AllNewlines(s)
  {
    assert forall i :: 0 <= i < |s| ==> (s + ['\n'])[i] == s[i];
  }

  /**
   * What `LastNonEmptyLine` finds: the last non-empty line, and nothing
   * exactly when the text is made of newlines only.
   */
  lemma LastNonEmptyLineShape(s: string)
    ensures LastNonEmptyLine(s).None? <==> AllNewlines(s)
    ensures LastNonEmptyLine(s).Some? ==> IsLastLine(s, LastNonEmptyLine(s).value)
  {
    LastNonEmptyLineAfterLastNewline(s);
    DropTrailingNewlinesDropsNewlines(s);
    var t := DropTrailingNewlines(s);
    if t == [] {
      assert s[0..] == s;
    } else {
      var k := LastIndexOf(t, '\n');
      assert s[|s| - 1] != '\n' || s[|t| - 1] != '\n';
      LastLineIntro(s, t, k);
    }
  }

  lemma LastLineIntro(s: string, t: string, k: int)
    requires t != [] && |t| <= |s| && s[..|t|] == t && t[|t| - 1] != '\n'
    requires AllNewlines(s[|t|..]) && k == LastIndexOf(t, '\n')
    ensures IsLastLine(s, t[k + 1..])
  {
    var l := t[k + 1..];
    assert s[k + 1..|t|] == l;
    assert k >= 0 ==> s[k] == t[k];
    assert LineAt(s, l, k + 1);
  }

  // ---------------------------------------------------------------------------
  // trim, and the first line of a text

  /** `trimStart`: drops the leading `\s` characters. */
  function TrimStart(s: string): (r: string)
    decreases |s|
  {
    if s != [] && IsSpace(s[0]) then TrimStart(s[1..]) else s
  }

  /** `trimEnd`: drops the trailing `\s` characters. */
  function TrimEnd(s: string): (r: string)
    decreases |s|
  {
    if s != [] && IsSpace(s[|s| - 1]) then TrimEnd(s[..|s| - 1]) else s
  }

  /** `trim`. */
  function Trim(s: string): string {
    TrimEnd(TrimStart(s))
  }

  /** A text made only of `\s` characters. */
  predicate AllSpace(s: string) {
    forall i :: 0 <= i < |s| ==> IsSpace(s[i])
  }

  /** `TrimStart` removes exactly a leading run of `\s`. */
  lemma {:induction false} TrimStartShape(s: string)
    ensures |TrimStart(s)| <= |s|
    ensures s[|s| - |TrimStart(s)|..] == TrimStart(s)
    ensures AllSpace(s[..|s| - |TrimStart(s)|])
    ensures TrimStart(s) == [] || !IsSpace(TrimStart(s)[0])
    decreases |s|
  {
    if s != [] && IsSpace(s[0]) {
      TrimStartShape(s[1..]);
      var t := TrimStart(s[1..]);
      assert s[1..][..|s| - 1 - |t|] == s[1..|s| - |t|];
      assert s[..|s| - |t|] == [s[0]] + s[1..|s| - |t|];
    }
  }

  /** `TrimEnd` removes exactly a trailing run of `\s`. */
  lemma {:induction false} TrimEndShape(s: string)
    ensures |TrimEnd(s)| <= |s|
    ensures s[..|TrimEnd(s)|] == TrimEnd(s)
    ensures AllSpace(s[|TrimEnd(s)|..])
    ensures TrimEnd(s) == [] || !IsSpace(TrimEnd(s)[|TrimEnd(s)| - 1])
    decreases |s|
  {
    if s != [] && IsSpace(s[|s| - 1]) {
      TrimEndShape(s[..|s| - 1]);
      var t := TrimEnd(s[..|s| - 1]);
      assert s[..|s| - 1][|t|..] + [s[|s| - 1]] == s[|t|..];
    }
  }

  /** `trim` leaves no `\s` at either end. */
  lemma TrimEnds(s: string)
    ensures var t := Trim(s); t == [] || (!IsSpace(t[0]) && !IsSpace(t[|t| - 1]))
  {
    var u := TrimStart(s);
    TrimStartShape(s);
    TrimEndShape(u);
    var t := TrimEnd(u);
    if t != [] {
      assert t[0] == u[0];
    }
  }

  /** `trim` keeps a middle part of the text. */
  lemma TrimIsInfix(s: string)
    ensures exists i: nat :: OccursAt(s, Trim(s), i)
  {
    var u := TrimStart(s);
    TrimStartShape(s);
    TrimEndShape(u);
    var t := TrimEnd(u);
    var i: nat := |s| - |u|;
    assert t == Trim(s);
    assert s[i..i + |t|] == s[i..][..|t|] == u[..|t|] == t;
    assert OccursAt(s, t, i);
  }

  /** The text up to (not including) the first line terminator. */
  function FirstLine(s: string): (r: string)
    ensures |r| <= |s| && s[..|r|] == r
    ensures forall i :: 0 <= i < |r| ==> !IsLineTerminator(r[i])
    ensures |r| < |s| ==> IsLineTerminator(s[|r|])
    decreases |s|
  {
    if s == [] || IsLineTerminator(s[0]) then [] else [s[0]] + FirstLine(s[1..])
  }

  // ---------------------------------------------------------------------------
  // replace of one character

  /**
   * `s.replace(c, '')` with a one-character string pattern: removes the first
   * occurrence of `c`, if any, and nothing else.
   */
  function RemoveFirst(s: string, c: char): string
    decreases |s|
  {
    if s == [] then []
    else if s[0] == c then s[1..]
    else [s[0]] + RemoveFirst(s[1..], c)
  }

  /** The index of the first `c` in `s`, or -1 when there is none. */
  function IndexOf(s: string, c: char): (k: int)
    ensures -1 <= k < |s|
    ensures k >= 0 ==> s[k] == c
    ensures forall j :: 0 <= j < |s| && (k < 0 || j < k) ==> s[j] != c
    decreases |s|
  {
    if s == [] then -1
    else if s[0] == c then 0
    else var k := IndexOf(s[1..], c); if k < 0 then -1 else k + 1
  }

  /**
   * `RemoveFirst` leaves a text without `c` unchanged, and otherwise cuts out
   * exactly the character at the first index that holds `c`.
   */
  lemma {:induction false} RemoveFirstShape(s: string, c: char)
    ensures var k := IndexOf(s, c); RemoveFirst(s, c) == if k < 0 then s else s[..k] + s[k + 1..]
    decreases |s|
  {
    if s != [] && s[0] != c {
      var t := s[1..];
      RemoveFirstShape(t, c);
      RemoveFirstStep(s, c);
      var k := IndexOf(t, c);
      if k >= 0 {
        CutAfterFirst(s, k);
      } else {
        assert s == [s[0]] + t;
      }
    }
  }

  /** Cutting position `k` of the tail is cutting position `k + 1` of the text. */
  lemma CutAfterFirst(s: string, k: nat)
    requires k + 1 < |s|
    ensures [s[0]] + (s[1..][..k] + s[1..][k + 1..]) == s[..k + 1] + s[k + 2..]
  {
    assert s[..k + 1] == [s[0]] + s[1..][..k];
    assert s[k + 2..] == s[1..][k + 1..];
  }

  /** One step of `RemoveFirst` and `IndexOf` past a first character that is not `c`. */
  lemma RemoveFirstStep(s: string, c: char)
    requires s != [] && s[0] != c
    ensures RemoveFirst(s, c) == [s[0]] + RemoveFirst(s[1..], c)
    ensures var k := IndexOf(s[1..], c); IndexOf(s, c) == if k < 0 then -1 else k + 1
  {
  }

  // ---------------------------------------------------------------------------
  // integers in template strings

  function DigitChar(d: nat): char
    requires d < 10
  {
    ('0' as int + d) as char
  }

  predicate IsDigit(c: char) {
    '0' <= c <= '9'
  }

  /** The decimal digits of `n`, without leading zeros: `${n}` for a non-negative integer. */
  function NatToDecimal(n: nat): (r: string)
    decreases n
  {
    if n < 10 then [DigitChar(n)] else NatToDecimal(n / 10) + [DigitChar(n % 10)]
  }

  /** `${i}` for an integer `i`. */
  function IntToDecimal(i: int): string {
    if i < 0 then "-" + NatToDecimal(-i) else NatToDecimal(i)
  }

  /** The value of a string of decimal digits, read from the left. */
  function DecimalValue(s: string): nat
    requires forall i :: 0 <= i < |s| ==> IsDigit(s[i])
    decreases |s|
  {
    if s == [] then 0
    else
      assert IsDigit(s[|s| - 1]);
      DecimalValue(s[..|s| - 1]) * 10 + (s[|s| - 1] as int - '0' as int)
  }

  /** `NatToDecimal` writes digits only, starts with a non-zero digit (unless `n` is 0), and reads back as `n`. */
  lemma {:induction false} NatToDecimalRoundTrip(n: nat)
    ensures var s := NatToDecimal(n);
      && s != []
      && (forall i :: 0 <= i < |s| ==> IsDigit(s[i]))
      && (n != 0 ==> s[0] != '0')
      && DecimalValue(s) == n
    decreases n
  {
    if n >= 10 {
      NatToDecimalRoundTrip(n / 10);
      var s := NatToDecimal(n);
      assert s[..|s| - 1] == NatToDecimal(n / 10);
    }
  }

  /** Distinct integers are rendered differently. */
  lemma IntToDecimalInjective(a: int, b: int)
    requires IntToDecimal(a) == IntToDecimal(b)
    ensures a == b
  {
    var da := if a < 0 then -a else a;
    var db := if b < 0 then -b else b;
    NatToDecimalRoundTrip(da);
    NatToDecimalRoundTrip(db);
    if a < 0 && b < 0 {
      assert NatToDecimal(da) == IntToDecimal(a)[1..];
      assert NatToDecimal(db) == IntToDecimal(b)[1..];
    }
  }
}
