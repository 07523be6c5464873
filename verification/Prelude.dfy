/** Option type, error values and collection facts shared by every module. */
module Prelude {

  datatype Option<+T> = None | Some(value: T)

  /** The error cases the modelled code distinguishes. `Unavailable` stands for a failed
      call to a foreign service, `Panicked` for a Rust panic. */
  datatype Error =
    | Conflict
    | NotFound
    | NoStatus
    | ScheduleFailed
    | VolumeLocked
    | MigrationFailed
    | MacConflict
    | BadCidr
    | DeserializationFailed
    | Unavailable
    | Panicked

  datatype Result<+T> = Ok(value: T) | Err(error: Error)

  /** The value a lookup yields, as `Map::get` does. */
  function Get<K, V>(m: map<K, V>, k: K): Option<V> {
    if k in m then Some(m[k]) else None
  }

  /** `Vec::retain`: the elements that satisfy `p`, in order. */
  function Retain<T(!new)>(s: seq<T>, p: T -> bool): (r: seq<T>)
    ensures forall x :: x in r <==> x in s && p(x)
    ensures |r| <= |s|
  {
    if s == [] then [] else (if p(s[0]) then [s[0]] else []) + Retain(s[1..], p)
  }

  /** `join`, with a separator between the parts. */
  function Join(parts: seq<string>, separator: string): string {
    if parts == [] then ""
    else if |parts| == 1 then parts[0]
    else parts[0] + separator + Join(parts[1..], separator)
  }

  lemma {:induction false} RetainAppend<T(!new)>(s: seq<T>, t: seq<T>, p: T -> bool)
    ensures Retain(s + t, p) == Retain(s, p) + Retain(t, p)
  {
    if s == [] {
      assert s + t == t;
    } else {
      assert (s + t)[1..] == s[1..] + t;
      RetainAppend(s[1..], t, p);
    }
  }

  lemma {:induction false} RetainAll<T(!new)>(s: seq<T>, p: T -> bool)
    requires forall x :: x in s ==> p(x)
    ensures Retain(s, p) == s
  {
    if s != [] {
      RetainAll(s[1..], p);
    }
  }

  /** A result as long as its input dropped nothing. */
  lemma {:induction false} RetainedAll<T(!new)>(s: seq<T>, p: T -> bool)
    requires |Retain(s, p)| == |s|
    ensures Retain(s, p) == s
  {
    if s != [] {
      assert |Retain(s[1..], p)| <= |s[1..]|;
      RetainedAll(s[1..], p);
    }
  }

  lemma {:induction false} RetainTwice<T(!new)>(s: seq<T>, p: T -> bool, q: T -> bool, both: T -> bool)
    requires forall x :: x in s ==> (both(x) <==> p(x) && q(x))
    ensures Retain(Retain(s, p), q) == Retain(s, both)
  {
    if s != [] {
      var rest := Retain(s[1..], p);
      RetainTwice(s[1..], p, q, both);
      assert s[0] in s;
      if p(s[0]) {
        assert ([s[0]] + rest)[1..] == rest;
      } else {
        assert Retain(s, p) == rest;
      }
    }
  }

  lemma {:induction false} SubsetSize<T>(a: set<T>, b: set<T>)
    requires a <= b
    ensures |a| <= |b|
  {
    assert b == a + (b - a);
  }

  /** Pigeonhole: a set larger than another has an element outside it. */
  lemma Pigeonhole<T>(small: set<T>, large: set<T>) returns (x: T)
    requires |small| < |large|
    ensures x in large && x !in small
  {
    if large <= small {
      SubsetSize(large, small);
      assert false;
    }
    x :| x in large && x !in small;
  }

  /** An image is no larger than its domain. */
  lemma {:induction false} ImageSize<S, T>(dom: set<S>, f: S -> T, image: set<T>)
    requires forall y :: y in image ==> exists x :: x in dom && f(x) == y
    ensures |image| <= |dom|
    decreases |dom|
  {
    if dom == {} {
      assert forall y :: y !in image;
    } else {
      var x :| x in dom;
      ImageSize(dom - {x}, f, image - {f(x)});
      if f(x) in image {
        assert |image| == |image - {f(x)}| + 1;
      } else {
        assert image == image - {f(x)};
      }
    }
  }

  /** A function that separates the elements of a set needs as many values. */
  lemma {:induction false} InjectiveImageSize<S, T>(dom: set<S>, f: S -> T, image: set<T>)
    requires forall x :: x in dom ==> f(x) in image
    requires forall x, y :: x in dom && y in dom && x != y ==> f(x) != f(y)
    ensures |dom| <= |image|
    decreases |dom|
  {
    if dom != {} {
      var x :| x in dom;
      InjectiveImageSize(dom - {x}, f, image - {f(x)});
    }
  }

  /** The text before the first `c`. */
  function Until(s: string, c: char): (r: string)
    ensures |r| <= |s|
  {
    if s == [] || s[0] == c then [] else [s[0]] + Until(s[1..], c)
  }

  /** `str::split` at every `c` */
  function Split(s: string, c: char): (r: seq<string>)
    ensures |r| >= 1
    decreases |s|
  {
    var head := Until(s, c);
    if |head| == |s| then [s] else [head] + Split(s[|head| + 1..], c)
  }

  lemma {:induction false} UntilIsPrefix(s: string, c: char)
    ensures Until(s, c) <= s && c !in Until(s, c)
  {
    if s != [] && s[0] != c {
      UntilIsPrefix(s[1..], c);
    }
  }

  lemma {:induction false} UntilSplits(word: string, c: char, rest: string)
    requires c !in word && (rest == [] || rest[0] == c)
    ensures Until(word + rest, c) == word
  {
    if word == [] {
      assert word + rest == rest;
    } else {
      assert (word + rest)[1..] == word[1..] + rest;
      UntilSplits(word[1..], c, rest);
    }
  }

  /** `n` steps, the i-th being `f(i, _)`. */
  ghost function Iterate<T(!new)>(f: (nat, T) -> T, x: T, n: nat): T {
    if n == 0 then x else f(n - 1, Iterate(f, x, n - 1))
  }

  /** Steps that count a measure down by one and rest at zero settle after as many steps as it counts. */
  lemma {:induction false} IterateSettles<T(!new)>(f: (nat, T) -> T, inv: T -> bool, measure: T -> nat, x: T, n: nat)
    requires inv(x)
    requires forall i: nat, y :: inv(y) ==> inv(f(i, y)) && (measure(y) == 0 ==> f(i, y) == y)
    requires forall i: nat, y :: inv(y) && measure(y) > 0 ==> measure(f(i, y)) == measure(y) - 1
    ensures inv(Iterate(f, x, n))
    ensures measure(Iterate(f, x, n)) == if n < measure(x) then measure(x) - n else 0
    ensures n < measure(x) ==> Iterate(f, x, n + 1) != Iterate(f, x, n)
    ensures n >= measure(x) ==> Iterate(f, x, n) == Iterate(f, x, measure(x))
  {
    if n > 0 {
      IterateSettles(f, inv, measure, x, n - 1);
    }
    assert Iterate(f, x, n + 1) == f(n, Iterate(f, x, n));
  }
}
