/**
 * The two Kotlin standard-library string operations the recipe card relies on:
 * `String.split(delimiter)` with a one-character delimiter and no limit, and
 * `String.trim()`. Both are modelled as functions on `seq<char>` and
 * characterised by lemmas: split against its inverse `Join`, trim against the
 * whitespace that surrounds its result.
 */
module Text {

  /** Kotlin's `Char.isWhitespace()`: `Character.isWhitespace` or
      `Character.isSpaceChar`. The table is the one for the Unicode version
      of current runtimes (U+180E is no longer a space separator there). */
  predicate IsWhitespace(c: char) {
    || '\t' <= c <= '\r'                  // tab, line feed, vertical tab, form feed, carriage return
    || '\U{1C}' <= c <= '\U{1F}'          // file, group, record and unit separators
    || c == ' '
    || c == '\U{A0}'                      // no-break space
    || c == '\U{1680}'
    || '\U{2000}' <= c <= '\U{200A}'
    || c == '\U{2028}' || c == '\U{2029}' // line and paragraph separators
    || c == '\U{202F}' || c == '\U{205F}' || c == '\U{3000}'
  }

  predicate AllWhitespace(s: string) {
    forall i :: 0 <= i < |s| ==> IsWhitespace(s[i])
  }

  // ---------------------------------------------------------------------------
  // split
  // ---------------------------------------------------------------------------

  /** `s.split(d.toString())`: the pieces between occurrences of `d`, trailing
      and leading empty pieces included, so the empty string gives one empty
      piece. */
  function Split(s: string, d: char): (pieces: seq<string>)
    ensures |pieces| >= 1
  {
    if s == [] then [[]]
    else
      var rest := Split(s[1..], d);
      if s[0] == d then [[]] + rest
      else [[s[0]] + rest[0]] + rest[1..]
  }

  /** The inverse of `Split`: the pieces, in order, separated by `d`. */
  function Join(pieces: seq<string>, d: char): (s: string)
    requires |pieces| >= 1
  {
    if |pieces| == 1 then pieces[0]
    else pieces[0] + [d] + Join(pieces[1..], d)
  }

  /** There is one piece more than there are delimiters in `s`. */
  lemma {:induction false} SplitCount(s: string, d: char)
    ensures |Split(s, d)| == multiset(s)[d] + 1
  {
    if s != [] {
      assert s == [s[0]] + s[1..];
      SplitCount(s[1..], d);
    }
  }

  /** No piece contains the delimiter. */
  lemma {:induction false} SplitPiecesFree(s: string, d: char)
    ensures forall p :: p in Split(s, d) ==> d !in p
  {
    if s != [] {
      SplitPiecesFree(s[1..], d);
      var rest := Split(s[1..], d);
      if s[0] != d {
        assert d !in rest[0];
        forall p | p in Split(s, d) ensures d !in p {
          if p != [s[0]] + rest[0] {
            assert p in rest[1..];
          }
        }
      }
    }
  }

  /** Joining the pieces with the delimiter gives back the original string. */
  lemma {:induction false} JoinSplit(s: string, d: char)
    ensures Join(Split(s, d), d) == s
  {
    if s != [] {
      var rest := Split(s[1..], d);
      JoinSplit(s[1..], d);
      if s[0] == d {
        assert Split(s, d)[1..] == rest;
      } else {
        var pieces := Split(s, d);
        if |rest| == 1 {
          assert pieces == [[s[0]] + rest[0]];
        } else {
          assert pieces[1..] == rest[1..];
          assert Join(rest, d) == rest[0] + [d] + Join(rest[1..], d);
        }
      }
    }
  }

  /** A delimiter-free prefix is glued to the first piece of what follows it. */
  lemma {:induction false} SplitPrefix(p: string, t: string, d: char)
    requires d !in p
    ensures Split(p + t, d) == [p + Split(t, d)[0]] + Split(t, d)[1..]
  {
    if p != [] {
      assert (p + t)[1..] == p[1..] + t;
      assert (p + t)[0] == p[0];
      SplitPrefix(p[1..], t, d);
      assert [p[0]] + (p[1..] + Split(t, d)[0]) == p + Split(t, d)[0];
    } else {
      var pieces := Split(t, d);
      assert p + t == t && p + pieces[0] == pieces[0];
      assert pieces == [pieces[0]] + pieces[1..];
    }
  }

  /** Splitting a join of delimiter-free pieces gives back the pieces. */
  lemma {:induction false} SplitJoin(pieces: seq<string>, d: char)
    requires |pieces| >= 1
    requires forall p :: p in pieces ==> d !in p
    ensures Split(Join(pieces, d), d) == pieces
  {
    if |pieces| == 1 {
      SplitPrefix(pieces[0], [], d);
      assert pieces[0] + [] == pieces[0];
    } else {
      var tail := Join(pieces[1..], d);
      assert forall p :: p in pieces[1..] ==> p in pieces;
      SplitJoin(pieces[1..], d);
      assert pieces[0] + [d] + tail == pieces[0] + ([d] + tail);
      SplitPrefix(pieces[0], [d] + tail, d);
      assert ([d] + tail)[1..] == tail;
      assert Split([d] + tail, d) == [[]] + pieces[1..];
      assert pieces[0] + [] == pieces[0];
    }
  }

  // ---------------------------------------------------------------------------
  // trim
  // ---------------------------------------------------------------------------

  /** Where `trim()` starts: the first index at or after `i` that does not
      hold whitespace, or `|s|` if there is none. */
  function TrimStartIndex(s: string, i: nat): (start: nat)
    requires i <= |s|
    ensures i <= start <= |s|
    ensures forall k :: i <= k < start ==> IsWhitespace(s[k])
    ensures start < |s| ==> !IsWhitespace(s[start])
    decreases |s| - i
  {
    if i < |s| && IsWhitespace(s[i]) then TrimStartIndex(s, i + 1) else i
  }

  /** Where `trim()` ends: scanning back from `j`, but not below `lo`, the
      index just past the last character that is not whitespace. */
  function TrimEndIndex(s: string, lo: nat, j: nat): (end: nat)
    requires lo <= j <= |s|
    ensures lo <= end <= j
    ensures forall k :: end <= k < j ==> IsWhitespace(s[k])
    ensures end > lo ==> !IsWhitespace(s[end - 1])
  {
    if j > lo && IsWhitespace(s[j - 1]) then TrimEndIndex(s, lo, j - 1) else j
  }

  /** `s.trim()`: `s` without its leading and trailing whitespace. Like the
      library, it finds the start scanning forward and then the end scanning
      backward down to the start. */
  function Trim(s: string): (r: string)
  {
    var start := TrimStartIndex(s, 0);
    s[start..TrimEndIndex(s, start, |s|)]
  }

  /** What `Trim` promises: its result is a slice of `s` framed by whitespace
      on both sides, with no whitespace at either end; it is empty exactly
      when `s` is all whitespace. The returned `i` is where the slice starts. */
  lemma TrimSlice(s: string) returns (i: nat)
    ensures i + |Trim(s)| <= |s| && Trim(s) == s[i..i + |Trim(s)|]
    ensures AllWhitespace(s[..i]) && AllWhitespace(s[i + |Trim(s)|..])
    ensures Trim(s) == [] || (!IsWhitespace(Trim(s)[0]) && !IsWhitespace(Trim(s)[|Trim(s)| - 1]))
    ensures Trim(s) == [] <==> AllWhitespace(s)
  {
    i := TrimStartIndex(s, 0);
    var end := TrimEndIndex(s, i, |s|);
    assert Trim(s) == s[i..end];
    assert AllWhitespace(s[..i]) by {
      forall k | 0 <= k < i ensures IsWhitespace(s[..i][k]) {
        assert s[..i][k] == s[k];
      }
    }
    assert AllWhitespace(s[end..]) by {
      forall k | 0 <= k < |s| - end ensures IsWhitespace(s[end..][k]) {
        assert s[end..][k] == s[end + k];
      }
    }
    if end == i {
      assert i == |s|;
      assert s[..i] == s;
    } else {
      assert !AllWhitespace(s) by {
        assert !IsWhitespace(s[i]);
      }
    }
  }

  /** Trimming twice is trimming once. */
  lemma TrimIdempotent(s: string)
    ensures Trim(Trim(s)) == Trim(s)
  {
    var r := Trim(s);
    var _ := TrimSlice(s);
    if r != [] {
      TrimFramed(r);
    }
  }

  /** A string with no whitespace at either end is its own trim. */
  lemma TrimFramed(s: string)
    requires s != [] && !IsWhitespace(s[0]) && !IsWhitespace(s[|s| - 1])
    ensures Trim(s) == s
  {
    assert TrimStartIndex(s, 0) == 0;
    assert TrimEndIndex(s, 0, |s|) == |s|;
    assert s[0..|s|] == s;
  }

  /** Trimming never introduces a character. */
  lemma TrimKeeps(s: string, c: char)
    requires c !in s
    ensures c !in Trim(s)
  {
    var i := TrimSlice(s);
  }
}
