/** Small value types and sequence operations shared by the rest of the model. */
module Basics {

  /** `Some(v)` or `None`, used for the serializers' `Result` and for readers that may stop early. */
  datatype Option<+T> = None | Some(value: T)

  /** The `anyhow::Result<()>` of the queueing calls: `Ok` is `Ok(())`, `Err` carries the error text. */
  datatype Outcome = Ok | Err(error: string)

  /** No element occurs twice. */
  predicate Distinct<T(==)>(s: seq<T>)
  {
    forall i, j :: 0 <= i < j < |s| ==> s[i] != s[j]
  }

  /** `s` read back to front. */
  function Reverse<T>(s: seq<T>): (r: seq<T>)
    ensures |r| == |s|
  {
    if s == [] then [] else Reverse(s[1..]) + [s[0]]
  }

  /** Position `i` of the reversed sequence holds position `|s| - 1 - i` of the original. */
  lemma {:induction false} ReverseIndex<T>(s: seq<T>)
    ensures forall i :: 0 <= i < |s| ==> Reverse(s)[i] == s[|s| - 1 - i]
  {
    if s != [] {
      ReverseIndex(s[1..]);
    }
  }

  lemma {:induction false} ReverseAppend<T>(a: seq<T>, b: seq<T>)
    ensures Reverse(a + b) == Reverse(b) + Reverse(a)
  {
    if a == [] {
      assert a + b == b;
    } else {
      assert (a + b)[0] == a[0] && (a + b)[1..] == a[1..] + b;
      ReverseAppend(a[1..], b);
    }
  }

  lemma ReverseMembership<T>(s: seq<T>, x: T)
    ensures x in Reverse(s) <==> x in s
  {
    var r := Reverse(s);
    ReverseIndex(s);
    if x in s {
      var i :| 0 <= i < |s| && s[i] == x;
      assert r[|s| - 1 - i] == x;
    }
    if x in r {
      var i :| 0 <= i < |r| && r[i] == x;
      assert s[|s| - 1 - i] == x;
    }
  }

  lemma ReverseDistinct<T>(s: seq<T>)
    requires Distinct(s)
    ensures Distinct(Reverse(s))
  {
    var r := Reverse(s);
    ReverseIndex(s);
    forall i, j | 0 <= i < j < |r| ensures r[i] != r[j] {
      assert r[i] == s[|s| - 1 - i] && r[j] == s[|s| - 1 - j];
    }
  }

  lemma ReverseReverse<T>(s: seq<T>)
    ensures Reverse(Reverse(s)) == s
  {
    var r := Reverse(Reverse(s));
    ReverseIndex(s);
    ReverseIndex(Reverse(s));
    forall i | 0 <= i < |s| ensures r[i] == s[i] {
      assert Reverse(s)[|s| - 1 - i] == s[i];
    }
  }

  lemma AppendAssoc<T>(a: seq<T>, b: seq<T>, c: seq<T>)
    ensures (a + b) + c == a + (b + c)
  {
  }

  /** All the pieces, one after another. */
  function Flatten<T>(ss: seq<seq<T>>): seq<T>
  {
    if ss == [] then [] else ss[0] + Flatten(ss[1..])
  }

  lemma {:induction false} FlattenAppend<T>(a: seq<seq<T>>, b: seq<seq<T>>)
    ensures Flatten(a + b) == Flatten(a) + Flatten(b)
  {
    if a == [] {
      assert a + b == b;
    } else {
      assert (a + b)[1..] == a[1..] + b;
      FlattenAppend(a[1..], b);
    }
  }
}
