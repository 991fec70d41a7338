/**
 * The few JavaScript built-ins the table renderer relies on, stated on
 * sequences: `Array.prototype.join`, `String.prototype.split` with a
 * one-character separator, and the length rule of the `Array(n)`
 * constructor. `Times` is an independent reference definition of "a string
 * concatenated n times", used to state what `repeat` computes.
 */
module JsBuiltins {

  /** The exception a JavaScript built-in may throw here. */
  datatype JsError = RangeError

  /** A computation that either yields a value or throws. */
  datatype Result<T> = Ok(value: T) | Err(error: JsError)

  /** The largest length of a JavaScript array, 2^32 - 1. */
  const MaxArrayLength: int := 0xFFFF_FFFF

  /** `new Array(n)` accepts exactly the integers 0 .. 2^32 - 1 as a length. */
  predicate IsArrayLength(n: int) {
    0 <= n <= MaxArrayLength
  }

  /** `parts.join(sep)`: the parts with `sep` between neighbours. */
  function Join(parts: seq<string>, sep: string): string
  {
    if |parts| == 0 then ""
    else if |parts| == 1 then parts[0]
    else parts[0] + sep + Join(parts[1..], sep)
  }

  /** `s.split(d)` for a one-character separator `d`: never empty. */
  function Split(s: string, d: char): (r: seq<string>)
    ensures |r| >= 1
  {
    if |s| == 0 then [""]
    else
      var rest := Split(s[1..], d);
      if s[0] == d then [""] + rest
      else [[s[0]] + rest[0]] + rest[1..]
  }

  /** `s` concatenated `n` times. */
  function Times(s: string, n: nat): string
  {
    if n == 0 then "" else s + Times(s, n - 1)
  }

  /** The sum of a sequence of widths. */
  function Sum(ws: seq<nat>): nat
  {
    if |ws| == 0 then 0 else ws[0] + Sum(ws[1..])
  }

  /** Every part has the length given by the matching entry of `ws`. */
  predicate HasLengths(parts: seq<string>, ws: seq<nat>)
  {
    |parts| == |ws| && forall k :: 0 <= k < |parts| ==> |parts[k]| == ws[k]
  }

  /** `new Array(n)`: `n` empty slots, each of which `join` prints as the empty string. */
  function Holes(n: nat): seq<string>
  {
    if n == 0 then [] else [""] + Holes(n - 1)
  }

  /** Joining `n + 1` empty slots with `s` yields `s` repeated `n` times. */
  lemma {:induction false} JoinOfHoles(s: string, n: nat)
    ensures Join(Holes(n + 1), s) == Times(s, n)
  {
    var holes := Holes(n + 1);
    assert holes == [""] + Holes(n);
    if n > 0 {
      assert holes[1..] == Holes(n);
      JoinOfHoles(s, n - 1);
      JoinUnfold(holes, s);
      assert "" + s == s;
    }
  }

  /** `Times(s, n)` has `n * |s|` characters. */
  lemma {:induction false} TimesLength(s: string, n: nat)
    ensures |Times(s, n)| == n * |s|
  {
    if n > 0 {
      TimesLength(s, n - 1);
      assert |Times(s, n)| == |s| + (n - 1) * |s|;
    }
  }

  /** A one-character string repeated `n` times is `n` copies of that character. */
  lemma {:induction false} TimesOfChar(c: char, n: nat)
    ensures Times([c], n) == seq(n, _ => c)
  {
    if n > 0 {
      TimesOfChar(c, n - 1);
      assert [c] + seq(n - 1, _ => c) == seq(n, _ => c);
    }
  }

  /** Splitting a text free of the separator yields that text alone. */
  lemma {:induction false} SplitWithoutSeparator(a: string, d: char)
    requires d !in a
    ensures Split(a, d) == [a]
  {
    if |a| > 0 {
      SplitWithoutSeparator(a[1..], d);
      assert [a[0]] + a[1..] == a;
    }
  }

  /** A separator-free prefix followed by the separator splits off as one piece. */
  lemma {:induction false} SplitAfterPiece(a: string, b: string, d: char)
    requires d !in a
    ensures Split(a + [d] + b, d) == [a] + Split(b, d)
  {
    var s := a + [d] + b;
    if |a| == 0 {
      assert s == [d] + b;
      assert s[1..] == b;
    } else {
      assert s[0] == a[0];
      assert s[1..] == a[1..] + [d] + b;
      SplitAfterPiece(a[1..], b, d);
      assert [a[0]] + a[1..] == a;
    }
  }

  /**
   * `join` and `split` are inverse: splitting the joined lines on the
   * separator gives the lines back, provided no line contains it.
   */
  lemma {:induction false} SplitJoin(lines: seq<string>, d: char)
    requires |lines| >= 1
    requires forall k :: 0 <= k < |lines| ==> d !in lines[k]
    ensures Split(Join(lines, [d]), d) == lines
  {
    if |lines| == 1 {
      SplitWithoutSeparator(lines[0], d);
    } else {
      SplitJoin(lines[1..], d);
      SplitAfterPiece(lines[0], Join(lines[1..], [d]), d);
      assert [lines[0]] + lines[1..] == lines;
    }
  }

  /** A character of a joined text comes from a part or from the separator. */
  lemma {:induction false} JoinChars(parts: seq<string>, sep: string, c: char)
    requires c in Join(parts, sep)
    ensures (exists k :: 0 <= k < |parts| && c in parts[k]) || (|parts| >= 2 && c in sep)
  {
    if |parts| >= 2 {
      var rest := Join(parts[1..], sep);
      assert Join(parts, sep) == parts[0] + sep + rest;
      if c !in parts[0] && c !in sep {
        JoinChars(parts[1..], sep, c);
        var k :| 0 <= k < |parts[1..]| && c in parts[1..][k];
        assert c in parts[k + 1];
      }
    }
  }

  /** The length of a join: the parts' widths plus one separator between each pair. */
  lemma {:induction false} JoinLength(parts: seq<string>, sep: string, ws: seq<nat>)
    requires |parts| >= 1 && HasLengths(parts, ws)
    ensures |Join(parts, sep)| == Sum(ws) + (|ws| - 1) * |sep|
  {
    if |parts| == 1 {
      assert ws[1..] == [];
    } else {
      JoinLength(parts[1..], sep, ws[1..]);
      assert (|ws| - 1) * |sep| == |sep| + (|ws| - 2) * |sep|;
    }
  }

  /** Where part `j` starts in `Join(parts, sep)` when the parts have widths `ws`. */
  function PartOffset(ws: seq<nat>, sepLength: nat, j: nat): nat
    requires j <= |ws|
  {
    Sum(ws[..j]) + j * sepLength
  }

  /** A slice that lies wholly after a prefix `a` of `a + b` is a slice of `b`. */
  lemma SliceAfterPrefix(a: string, b: string, lo: nat, hi: nat)
    requires |a| <= lo <= hi <= |a| + |b|
    ensures (a + b)[lo..hi] == b[lo - |a|..hi - |a|]
  {
  }

  /** A join of two or more parts is the first part, the separator, and the join of the rest. */
  lemma JoinUnfold(parts: seq<string>, sep: string)
    requires |parts| >= 2
    ensures Join(parts, sep) == (parts[0] + sep) + Join(parts[1..], sep)
  {
  }

  /** A join of one or more parts starts with the first part. */
  lemma JoinStartsWithFirst(parts: seq<string>, sep: string)
    requires |parts| >= 1
    ensures |parts[0]| <= |Join(parts, sep)| && Join(parts, sep)[..|parts[0]|] == parts[0]
  {
    if |parts| >= 2 {
      JoinUnfold(parts, sep);
    }
  }

  /** The offset of part `j` is one part and one separator past the offset of part `j - 1` of the rest. */
  lemma PartOffsetStep(ws: seq<nat>, sepLength: nat, j: nat)
    requires 0 < j <= |ws|
    ensures PartOffset(ws, sepLength, j) == ws[0] + sepLength + PartOffset(ws[1..], sepLength, j - 1)
  {
    assert ws[..j][1..] == ws[1..][..j - 1];
  }

  /**
   * Part `j` of a join can be read back from the joined text at the offset
   * that the widths of the parts before it and the separators fix.
   */
  lemma {:induction false} JoinPartAt(parts: seq<string>, sep: string, ws: seq<nat>, j: nat)
    requires HasLengths(parts, ws) && j < |parts|
    ensures PartOffset(ws, |sep|, j) + ws[j] <= |Join(parts, sep)|
    ensures Join(parts, sep)[PartOffset(ws, |sep|, j)..PartOffset(ws, |sep|, j) + ws[j]] == parts[j]
  {
    if j == 0 {
      assert ws[..0] == [];
      JoinStartsWithFirst(parts, sep);
    } else {
      JoinPartAt(parts[1..], sep, ws[1..], j - 1);
      PartOffsetStep(ws, |sep|, j);
      JoinUnfold(parts, sep);
      var o := ws[0] + |sep| + PartOffset(ws[1..], |sep|, j - 1);
      SliceAfterPrefix(parts[0] + sep, Join(parts[1..], sep), o, o + ws[j]);
    }
  }

  /** The separator after part `j` of a join sits right after that part. */
  lemma {:induction false} JoinSeparatorAt(parts: seq<string>, sep: string, ws: seq<nat>, j: nat)
    requires HasLengths(parts, ws) && j + 1 < |parts|
    ensures PartOffset(ws, |sep|, j) + ws[j] + |sep| <= |Join(parts, sep)|
    ensures Join(parts, sep)[PartOffset(ws, |sep|, j) + ws[j]..PartOffset(ws, |sep|, j) + ws[j] + |sep|] == sep
  {
    JoinUnfold(parts, sep);
    if j == 0 {
      assert ws[..0] == [];
      var joined := Join(parts, sep);
      assert joined[ws[0]..ws[0] + |sep|] == sep;
    } else {
      JoinSeparatorAt(parts[1..], sep, ws[1..], j - 1);
      PartOffsetStep(ws, |sep|, j);
      var o := ws[0] + |sep| + PartOffset(ws[1..], |sep|, j - 1) + ws[j];
      SliceAfterPrefix(parts[0] + sep, Join(parts[1..], sep), o, o + |sep|);
    }
  }
}
