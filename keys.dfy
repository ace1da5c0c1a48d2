/** Traktor's own path notation: directories and primary keys separate their
    components with the two characters `/:` (`Macintosh HD/:Users/:me/:a.mp3`).
    This module splits such strings the way `str.split(u'/:')` does and
    turns the notation into a POSIX directory with `str.replace("/:", "/")`. */
module Keys {

  /** The separator of Traktor's notation. */
  const Sep: string := "/:"

  /** The separator of a POSIX path. */
  const Slash: string := "/"

  /** True when `s` starts with the separator `/:`. */
  predicate StartsWithSep(s: string) {
    |s| >= 2 && s[0] == '/' && s[1] == ':'
  }

  /** True when the separator `/:` occurs somewhere in `s`. */
  predicate HasSep(s: string) {
    exists i :: 0 <= i < |s| - 1 && StartsWithSep(s[i..])
  }

  predicate IsPrefix(p: string, s: string) {
    |p| <= |s| && s[..|p|] == p
  }

  predicate IsSuffix(p: string, s: string) {
    |p| <= |s| && s[|s| - |p|..] == p
  }

  /** `s.split("/:")`: the pieces between the separators, scanned from the
      left; there is always at least one piece. */
  function Split(s: string): (parts: seq<string>)
    ensures |parts| >= 1
    ensures IsPrefix(parts[0], s)
    ensures forall k :: 0 <= k < |parts| ==> !HasSep(parts[k])
    decreases |s|
  {
    if |s| < 2 then
      assert !HasSep(s);
      [s]
    else if StartsWithSep(s) then
      [""] + Split(s[2..])
    else
      var rest := Split(s[1..]);
      var head := [s[0]] + rest[0];
      ConsKeepsNoSep(s, rest[0]);
      [head] + rest[1..]
  }

  /** A piece that starts right after the first character of `s` stays free
      of separators when that character is put in front of it, unless `s`
      itself starts with the separator. */
  lemma ConsKeepsNoSep(s: string, t: string)
    requires |s| >= 2 && !StartsWithSep(s)
    requires IsPrefix(t, s[1..]) && !HasSep(t)
    ensures !HasSep([s[0]] + t)
  {
    var u := [s[0]] + t;
    forall j | 0 <= j < |u| - 1
      ensures !StartsWithSep(u[j..])
    {
      if j == 0 {
        assert u[1] == s[1];
      } else {
        assert u[j..] == t[j - 1..];
      }
    }
  }

  /** `sep.join(parts)`. */
  function JoinWith(parts: seq<string>, sep: string): string
    requires |parts| >= 1
  {
    if |parts| == 1 then parts[0] else parts[0] + sep + JoinWith(parts[1..], sep)
  }

  /** Moving a leading character into the first piece moves it to the front
      of the joined string. */
  lemma JoinWithCons(c: char, parts: seq<string>, sep: string)
    requires |parts| >= 1
    ensures JoinWith([[c] + parts[0]] + parts[1..], sep) == [c] + JoinWith(parts, sep)
  {
    var moved := [[c] + parts[0]] + parts[1..];
    if |parts| > 1 {
      assert moved[1..] == parts[1..];
    }
  }

  /** Joining the pieces of a split with the same separator gives back the
      original string: splitting loses nothing. */
  lemma {:induction false} SplitJoin(s: string)
    ensures JoinWith(Split(s), Sep) == s
    decreases |s|
  {
    if |s| < 2 {
    } else if StartsWithSep(s) {
      SplitJoin(s[2..]);
      var parts := [""] + Split(s[2..]);
      assert parts[1..] == Split(s[2..]);
      assert s == Sep + s[2..];
    } else {
      SplitJoin(s[1..]);
      JoinWithCons(s[0], Split(s[1..]), Sep);
      assert s == [s[0]] + s[1..];
    }
  }

  /** `s.replace("/:", "/")`, scanning from the left. */
  function ReplaceSep(s: string): (r: string)
    decreases |s|
  {
    if |s| < 2 then s
    else if StartsWithSep(s) then Slash + ReplaceSep(s[2..])
    else [s[0]] + ReplaceSep(s[1..])
  }

  /** Replacing the separator is the same as splitting on it and joining
      the pieces with a single slash, so the pieces of a Traktor directory
      become the components of the POSIX path in the same order. */
  lemma {:induction false} ReplaceSepIsSplitJoin(s: string)
    ensures ReplaceSep(s) == JoinWith(Split(s), Slash)
    decreases |s|
  {
    if |s| < 2 {
    } else if StartsWithSep(s) {
      ReplaceSepIsSplitJoin(s[2..]);
      var parts := [""] + Split(s[2..]);
      assert parts[1..] == Split(s[2..]);
    } else {
      ReplaceSepIsSplitJoin(s[1..]);
      JoinWithCons(s[0], Split(s[1..]), Slash);
    }
  }

  /** `s.split("/:")[-1]`: the piece after the last separator. */
  function LastComponent(s: string): (r: string)
  {
    var parts := Split(s);
    parts[|parts| - 1]
  }

  /** The last piece of any split ends the joined string. */
  lemma {:induction false} LastPartIsSuffix(parts: seq<string>, sep: string)
    requires |parts| >= 1
    ensures IsSuffix(parts[|parts| - 1], JoinWith(parts, sep))
    decreases |parts|
  {
    if |parts| > 1 {
      LastPartIsSuffix(parts[1..], sep);
    }
  }

  /** A string with no separator splits into itself alone. */
  lemma {:induction false} SplitWithoutSep(s: string)
    requires !HasSep(s)
    ensures Split(s) == [s]
    decreases |s|
  {
    if |s| >= 2 {
      assert !StartsWithSep(s[0..]);
      assert !HasSep(s[1..]);
      SplitWithoutSep(s[1..]);
      assert s == [s[0]] + s[1..];
    }
  }

  /** The last component of a key holds no separator, ends the key, and is the
      whole key when the key holds no separator. */
  lemma LastComponentProperties(s: string)
    ensures !HasSep(LastComponent(s))
    ensures IsSuffix(LastComponent(s), s)
    ensures !HasSep(s) ==> LastComponent(s) == s
  {
    SplitJoin(s);
    LastPartIsSuffix(Split(s), Sep);
    if !HasSep(s) {
      SplitWithoutSep(s);
    }
  }
}
