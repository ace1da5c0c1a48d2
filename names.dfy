/** File-name sanitisation: every character a volume may refuse in a file
    name is replaced by a dash, one forbidden character after another.
    The functions only compute; what they do to each character is stated by
    the lemmas below them, so that other proofs do not pay for it. */
module Names {

  /** The characters `\ / : * ? " < > |`, in the order the exporter replaces them. */
  const ReplaceChars: seq<char> := ['\\', '/', ':', '*', '?', '"', '<', '>', '|']

  const Dash: char := '-'

  /** `s.replace(c, '-')` for the single character `c`. */
  function ReplaceChar(s: string, c: char): (r: string)
    ensures |r| == |s|
  {
    if s == [] then []
    else [if s[0] == c then Dash else s[0]] + ReplaceChar(s[1..], c)
  }

  /** Every occurrence of `c` becomes a dash and every other character stays. */
  lemma {:induction false} ReplaceCharPointwise(s: string, c: char)
    ensures forall i :: 0 <= i < |s| ==> ReplaceChar(s, c)[i] == (if s[i] == c then Dash else s[i])
    decreases |s|
  {
    if s != [] {
      ReplaceCharPointwise(s[1..], c);
      var r := ReplaceChar(s, c);
      forall i | 0 <= i < |s|
        ensures r[i] == (if s[i] == c then Dash else s[i])
      {
        if i > 0 {
          assert r[i] == ReplaceChar(s[1..], c)[i - 1];
        }
      }
    }
  }

  /** Replaces the characters of `cs` one after another, as the loop over
      the forbidden characters does. */
  function ReplaceEach(s: string, cs: seq<char>): (r: string)
    ensures |r| == |s|
    decreases cs
  {
    if cs == [] then s
    else ReplaceEach(ReplaceChar(s, cs[0]), cs[1..])
  }

  /** Every character of `cs` ends up a dash and every other character stays
      where it was. */
  lemma {:induction false} ReplaceEachPointwise(s: string, cs: seq<char>)
    ensures forall i :: 0 <= i < |s| ==> ReplaceEach(s, cs)[i] == (if s[i] in cs then Dash else s[i])
    decreases cs
  {
    if cs != [] {
      var t := ReplaceChar(s, cs[0]);
      ReplaceCharPointwise(s, cs[0]);
      ReplaceEachPointwise(t, cs[1..]);
      forall i | 0 <= i < |s|
        ensures ReplaceEach(s, cs)[i] == (if s[i] in cs then Dash else s[i])
      {
        assert cs == [cs[0]] + cs[1..];
        if t[i] in cs[1..] {
          assert t[i] in cs;
        }
      }
    }
  }

  /** A character as it appears in a sanitised name. */
  function SanitizeChar(c: char): char {
    if c in ReplaceChars then Dash else c
  }

  /** The name as it is used for a folder or a playlist file on the volume,
      character by character. */
  function Sanitize(name: string): (r: string)
    ensures |r| == |name|
  {
    seq(|name|, i requires 0 <= i < |name| => SanitizeChar(name[i]))
  }

  /** Replacing the forbidden characters one after another, as the exporter
      does, is the same as sanitising each character on its own: the order
      of the replacements does not matter. */
  lemma SanitizeIsReplaceEach(name: string)
    ensures ReplaceEach(name, ReplaceChars) == Sanitize(name)
  {
    ReplaceEachPointwise(name, ReplaceChars);
  }

  /** Sanitising keeps every allowed character in place, turns each forbidden
      one into a dash, and so leaves no forbidden character behind. */
  lemma SanitizeChars(name: string)
    ensures forall i :: 0 <= i < |name| && name[i] !in ReplaceChars ==> Sanitize(name)[i] == name[i]
    ensures forall i :: 0 <= i < |name| && name[i] in ReplaceChars ==> Sanitize(name)[i] == Dash
    ensures forall i :: 0 <= i < |name| ==> Sanitize(name)[i] !in ReplaceChars
  {
  }

  /** A sanitised name is left alone by a second sanitisation. */
  lemma SanitizeIdempotent(name: string)
    ensures Sanitize(Sanitize(name)) == Sanitize(name)
  {
    var once := Sanitize(name);
    SanitizeChars(name);
    SanitizeKeepsCleanNames(once);
  }

  /** Names without forbidden characters are kept as they are. */
  lemma SanitizeKeepsCleanNames(name: string)
    requires forall i :: 0 <= i < |name| ==> name[i] !in ReplaceChars
    ensures Sanitize(name) == name
  {
    SanitizeChars(name);
  }

  /** A sanitised name holds no slash, so it is always a single path component. */
  lemma SanitizedHasNoSlash(name: string)
    ensures '/' !in Sanitize(name)
  {
    SanitizeChars(name);
    assert '/' in ReplaceChars;
  }
}
