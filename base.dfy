/** Small value types shared by every part of the model. */
module Base {

  /** Python's `None` versus a present value. */
  datatype Option<+T> = None | Some(value: T)

  /** A computation that either yields a value or raises an exception, whose
      `str(e)` is kept as `message`. */
  datatype Result<+T> = Ok(value: T) | Err(message: string)

  /** Raw file content as Python `bytes`. */
  type Bytes = seq<bv8>
}

/** The string operations the endpoints use to build texts and messages. */
module Text {

  /** Python's `sep.join(xs)`. */
  function Join(xs: seq<string>, sep: string): (r: string)
    ensures |xs| > 0 ==> |r| == TotalLength(xs) + (|xs| - 1) * |sep|
  {
    if |xs| == 0 then ""
    else if |xs| == 1 then xs[0]
    else xs[0] + sep + Join(xs[1..], sep)
  }

  /** Sum of the lengths of the pieces. */
  function TotalLength(xs: seq<string>): nat
  {
    if xs == [] then 0 else |xs[0]| + TotalLength(xs[1..])
  }

  /** A single element is returned unchanged, and the empty list gives "". */
  lemma JoinShortLists(x: string, sep: string)
    ensures Join([x], sep) == x
    ensures Join([], sep) == ""
  {
  }

  /** Appending an element to a non-empty list adds exactly one separator,
      placed between the old text and the new element. */
  lemma {:induction false} JoinAppend(xs: seq<string>, x: string, sep: string)
    requires |xs| > 0
    ensures Join(xs + [x], sep) == Join(xs, sep) + sep + x
  {
    if |xs| == 1 {
      assert xs + [x] == [xs[0], x];
      assert [xs[0], x][1..] == [x];
    } else {
      calc {
        Join(xs + [x], sep);
        { assert (xs + [x])[1..] == xs[1..] + [x]; }
        xs[0] + sep + Join(xs[1..] + [x], sep);
        { JoinAppend(xs[1..], x, sep); }
        xs[0] + sep + (Join(xs[1..], sep) + sep + x);
        Join(xs, sep) + sep + x;
      }
    }
  }

  /** `t` occurs in `s` as a contiguous piece (Python's `t in s`). */
  ghost predicate Contains(s: string, t: string)
  {
    exists i :: OccursAt(s, t, i)
  }

  /** `t` occurs in `s` starting at index `i`. */
  ghost predicate OccursAt(s: string, t: string, i: int)
  {
    0 <= i <= |s| - |t| && s[i..i + |t|] == t
  }

  /** A text placed between two others is contained in the whole. */
  lemma ContainsMiddle(a: string, t: string, b: string)
    ensures Contains(a + t + b, t)
  {
    assert (a + t + b)[|a|..|a| + |t|] == t;
    assert OccursAt(a + t + b, t, |a|);
  }
}
