/**
 * The string operations the request handlers use to build and take apart
 * statement text: Python's `sep.join(parts)` and `s.split(c)`, and a count
 * of one character (the `?` placeholders).
 */
module Text {

  /** `sep.join(parts)` */
  function Join(parts: seq<string>, sep: string): string
    decreases |parts|
  {
    if |parts| == 0 then ""
    else if |parts| == 1 then parts[0]
    else parts[0] + sep + Join(parts[1..], sep)
  }

  /** Number of occurrences of `c` in `s`. */
  function Count(s: string, c: char): (n: nat)
    ensures n == 0 <==> c !in s
    ensures n <= |s|
    decreases |s|
  {
    if |s| == 0 then 0
    else
      assert s == [s[0]] + s[1..];
      (if s[0] == c then 1 else 0) + Count(s[1..], c)
  }

  /**
   * `s.split(c)` for a one-character separator: the pieces between the
   * separators, one more than there are separators (so `"".split(c)` is
   * `[""]`), none of them holding the separator.
   */
  function Split(s: string, c: char): (pieces: seq<string>)
    ensures |pieces| == Count(s, c) + 1
    ensures forall i :: 0 <= i < |pieces| ==> c !in pieces[i]
    decreases |s|
  {
    if |s| == 0 then [""]
    else
      var rest := Split(s[1..], c);
      if s[0] == c then [""] + rest
      else [[s[0]] + rest[0]] + rest[1..]
  }

  /** Every string of `xs` with `pad` in front of it. */
  function Prefixed(pad: string, xs: seq<string>): (r: seq<string>)
  {
    seq(|xs|, i requires 0 <= i < |xs| => pad + xs[i])
  }

  lemma {:induction false} CountConcat(a: string, b: string, c: char)
    ensures Count(a + b, c) == Count(a, c) + Count(b, c)
    decreases |a|
  {
    if |a| > 0 {
      assert (a + b)[1..] == a[1..] + b;
      CountConcat(a[1..], b, c);
    } else {
      assert a + b == b;
    }
  }

  /** Joining the pieces of a split with the separator gives the string back. */
  lemma {:induction false} JoinSplit(s: string, c: char)
    ensures Join(Split(s, c), [c]) == s
    decreases |s|
  {
    if |s| > 0 {
      var rest := Split(s[1..], c);
      JoinSplit(s[1..], c);
      if s[0] == c {
        assert Join([""] + rest, [c]) == "" + [c] + Join(rest, [c]);
        assert s == [c] + s[1..];
      } else if |rest| == 1 {
        assert Split(s, c) == [[s[0]] + rest[0]];
        assert s == [s[0]] + s[1..];
      } else {
        var pieces := Split(s, c);
        assert pieces == [[s[0]] + rest[0]] + rest[1..];
        assert pieces[1..] == rest[1..];
        assert Join(rest, [c]) == rest[0] + [c] + Join(rest[1..], [c]);
        assert Join(pieces, [c]) == [s[0]] + rest[0] + [c] + Join(rest[1..], [c]);
        assert s == [s[0]] + s[1..];
      }
    }
  }

  /** A string without the separator is one piece. */
  lemma {:induction false} SplitWithout(a: string, c: char)
    requires c !in a
    ensures Split(a, c) == [a]
    decreases |a|
  {
    if |a| > 0 {
      assert c !in a[1..] by {
        forall k | 0 <= k < |a[1..]| ensures a[1..][k] != c {
          assert a[1..][k] == a[k + 1];
        }
      }
      SplitWithout(a[1..], c);
      assert a == [a[0]] + a[1..];
    }
  }

  /** Splitting at the first separator. */
  lemma {:induction false} SplitAt(a: string, b: string, c: char)
    requires c !in a
    ensures Split(a + [c] + b, c) == [a] + Split(b, c)
    decreases |a|
  {
    if |a| == 0 {
      assert a + [c] + b == [c] + b;
      assert ([c] + b)[1..] == b;
    } else {
      var s := a + [c] + b;
      assert s[0] == a[0] && s[1..] == a[1..] + [c] + b;
      assert c !in a[1..] by {
        forall k | 0 <= k < |a[1..]| ensures a[1..][k] != c {
          assert a[1..][k] == a[k + 1];
        }
      }
      SplitAt(a[1..], b, c);
      var rest := Split(s[1..], c);
      assert rest == [a[1..]] + Split(b, c);
      assert rest[0] == a[1..] && rest[1..] == Split(b, c);
      assert s[0] != c;
      assert Split(s, c) == [[s[0]] + rest[0]] + rest[1..];
      assert [s[0]] + rest[0] == a;
    }
  }

  /**
   * Splitting `pre + sep.join(parts)` on the first character of `sep`, when
   * neither the parts nor the rest of `sep` hold it: the first piece is
   * `pre + parts[0]`, every later piece is a part with the rest of `sep` in
   * front of it.
   */
  lemma {:induction false} SplitJoinAfter(pre: string, parts: seq<string>, c: char, pad: string)
    requires |parts| >= 1
    requires c !in pre && c !in pad
    requires forall i :: 0 <= i < |parts| ==> c !in parts[i]
    ensures Split(pre + Join(parts, [c] + pad), c) == [pre + parts[0]] + Prefixed(pad, parts[1..])
    decreases |parts|
  {
    var sep := [c] + pad;
    if |parts| == 1 {
      assert c !in pre + parts[0];
      SplitWithout(pre + parts[0], c);
    } else {
      var tail := Join(parts[1..], sep);
      assert pre + Join(parts, sep) == (pre + parts[0]) + [c] + (pad + tail);
      assert c !in pre + parts[0];
      SplitAt(pre + parts[0], pad + tail, c);
      SplitJoinAfter(pad, parts[1..], c, pad);
      assert [pad + parts[1..][0]] + Prefixed(pad, parts[1..][1..]) == Prefixed(pad, parts[1..]);
    }
  }

  /**
   * Splitting `sep.join(parts)` on the first character of `sep`: the first
   * part comes back as it was, every later part with the rest of `sep` in
   * front of it (for `", "` and `','`, one leading space).
   */
  lemma SplitJoin(parts: seq<string>, c: char, pad: string)
    requires |parts| >= 1
    requires c !in pad
    requires forall i :: 0 <= i < |parts| ==> c !in parts[i]
    ensures Split(Join(parts, [c] + pad), c) == [parts[0]] + Prefixed(pad, parts[1..])
  {
    SplitJoinAfter("", parts, c, pad);
    assert "" + Join(parts, [c] + pad) == Join(parts, [c] + pad);
    assert "" + parts[0] == parts[0];
  }

  /** `SplitJoin` for Python's `', '.join(...)` split on `','`. */
  lemma SplitCommaJoin(parts: seq<string>)
    requires |parts| >= 1
    requires forall i :: 0 <= i < |parts| ==> ',' !in parts[i]
    ensures Split(Join(parts, ", "), ',') == [parts[0]] + Prefixed(" ", parts[1..])
  {
    assert [','] + " " == ", ";
    SplitJoin(parts, ',', " ");
  }

  lemma CountConcat5(a: string, b: string, d: string, e: string, f: string, c: char)
    ensures Count(a + b + d + e + f, c) == Count(a, c) + Count(b, c) + Count(d, c) + Count(e, c) + Count(f, c)
  {
    CountConcat(a, b, c);
    CountConcat(a + b, d, c);
    CountConcat(a + b + d, e, c);
    CountConcat(a + b + d + e, f, c);
  }

  /**
   * When every part holds `c` exactly `m` times and the separator does not
   * hold it, the joined string holds it `m` times per part.
   */
  lemma {:induction false} CountJoin(parts: seq<string>, sep: string, c: char, m: nat)
    requires c !in sep
    requires forall i :: 0 <= i < |parts| ==> Count(parts[i], c) == m
    ensures Count(Join(parts, sep), c) == m * |parts|
    decreases |parts|
  {
    if |parts| == 1 {
    } else if |parts| > 1 {
      var tail := Join(parts[1..], sep);
      var n := |parts| - 1;
      CountJoin(parts[1..], sep, c, m);
      CountConcat(parts[0], sep, c);
      CountConcat(parts[0] + sep, tail, c);
      assert Count(Join(parts, sep), c) == m + m * n;
      Distribute(m, n);
    }
  }

  lemma Distribute(m: nat, n: nat)
    ensures m * (n + 1) == m + m * n
  {
  }
}
