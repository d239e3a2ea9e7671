/** Datatypes and sequence helpers used by every component of the consent framework model. */
module Shared {

  /** Python's `Optional[T]`: a value or `None`. */
  datatype Option<T> = None | Some(value: T)

  /** The exceptions the modelled code raises (or lets escape) on purpose. */
  datatype Error =
    | ConsentInvariantViolation(message: string)
    | TypeError(message: string)
    | ValueError(message: string)
    | IndexError(message: string)

  /** A call that either returns a value or raises one of the exceptions above. */
  datatype Result<T> = Ok(value: T) | Err(error: Error)

  /** Timestamps: whole seconds on one clock, supplied by the caller instead of `datetime.utcnow()`. */
  type Time = int

  /**
   * The values a free-form Python dictionary of metadata holds: `None`, booleans, numbers,
   * strings, datetimes and nested dictionaries.
   */
  datatype Value =
    | Nil
    | Flag(b: bool)
    | Num(n: real)
    | Text(s: string)
    | Moment(at: Time)
    | Record(fields: map<string, Value>)

  /** Python truthiness of a value: `None`, `False`, `0`, `""` and `{}` are false. */
  predicate Truthy(v: Value)
  {
    match v
    case Nil => false
    case Flag(b) => b
    case Num(n) => n != 0.0
    case Text(s) => s != ""
    case Moment(_) => true
    case Record(m) => |m| > 0
  }

  /** `d.get(key, default)` on a dictionary. */
  function Get(d: map<string, Value>, key: string, default: Value): (v: Value)
    ensures key in d ==> v == d[key]
    ensures key !in d ==> v == default
  {
    if key in d then d[key] else default
  }

  /** An `Optional[str]` stored as a dictionary value. */
  function OptText(s: Option<string>): Value
  {
    match s
    case None => Nil
    case Some(t) => Text(t)
  }

  predicate Distinct<T(==)>(s: seq<T>)
  {
    forall i, j :: 0 <= i < j < |s| ==> s[i] != s[j]
  }

  /** Number of occurrences of `x` in `s`. */
  function Count<T(==)>(s: seq<T>, x: T): (n: nat)
    ensures n <= |s|
    ensures n > 0 <==> x in s
  {
    if s == [] then 0
    else Count(s[..|s| - 1], x) + (if s[|s| - 1] == x then 1 else 0)
  }

  /** `Count` distributes over concatenation. */
  lemma {:induction false} CountAppend<T>(a: seq<T>, b: seq<T>, x: T)
    ensures Count(a + b, x) == Count(a, x) + Count(b, x)
    decreases |b|
  {
    if b == [] {
      assert a + b == a;
    } else {
      var b' := b[..|b| - 1];
      assert (a + b)[..|a + b| - 1] == a + b';
      CountAppend(a, b', x);
    }
  }

  /** One more element adds one to its own count only. */
  lemma CountSnocOne<T>(s: seq<T>, x: T, y: T)
    ensures Count(s + [x], y) == Count(s, y) + (if x == y then 1 else 0)
  {
    assert (s + [x])[..|s|] == s;
  }

  /** Two different values each occurring need at least two elements. */
  lemma {:induction false} CountTwoKeys<T>(s: seq<T>, a: T, b: T)
    requires a != b
    ensures Count(s, a) + Count(s, b) <= |s|
  {
    if s != [] {
      CountTwoKeys(s[..|s| - 1], a, b);
    }
  }

  /** A prefix one element longer is the shorter prefix followed by that element. */
  lemma PrefixSnoc<T>(s: seq<T>, i: int)
    requires 0 <= i < |s|
    ensures s[..i + 1] == s[..i] + [s[i]]
  {
  }

  /** The first `n` elements of `s` (all of `s` when it is shorter): Python's `s[:n]` for `n >= 0`. */
  function Take<T>(s: seq<T>, n: nat): (r: seq<T>)
    ensures |r| == if |s| <= n then |s| else n
    ensures r <= s
  {
    if |s| <= n then s else s[..n]
  }

  /**
   * A dictionary of counts filled by `counts[k] = counts.get(k, 0) + 1` for each `k` of `s` in turn.
   */
  function Tally<T(==)>(s: seq<T>): (m: map<T, nat>)
  {
    if s == [] then map[]
    else
      var m := Tally(s[..|s| - 1]);
      var k := s[|s| - 1];
      m[k := (if k in m then m[k] else 0) + 1]
  }

  /** One more element adds one to its count. */
  lemma TallySnoc<T>(s: seq<T>, x: T)
    ensures Tally(s + [x]) == var m := Tally(s); m[x := (if x in m then m[x] else 0) + 1]
  {
    assert (s + [x])[..|s + [x]| - 1] == s;
  }

  /** A tally holds exactly the keys that occur, each with its number of occurrences. */
  lemma {:induction false} TallyCounts<T>(s: seq<T>)
    ensures forall k :: k in Tally(s) <==> k in s
    ensures forall k :: k in Tally(s) ==> Tally(s)[k] == Count(s, k)
  {
    if s != [] {
      var s' := s[..|s| - 1];
      TallyCounts(s');
      assert s == s' + [s[|s| - 1]];
      forall k ensures k in s <==> k in s' || k == s[|s| - 1] {
      }
    }
  }

  /** A sequence without duplicates has as many elements as the set of its elements. */
  lemma {:induction false} DistinctCardinality<T>(s: seq<T>)
    requires Distinct(s)
    ensures |set x | x in s| == |s|
  {
    if s != [] {
      var s' := s[..|s| - 1];
      var last := s[|s| - 1];
      DistinctCardinality(s');
      assert s == s' + [last];
      assert (set x | x in s) == (set x | x in s') + {last};
      assert last !in (set x | x in s');
    }
  }

  /** Elements of `s` joined by `sep`: Python's `sep.join(s)`. */
  function Join(s: seq<string>, sep: string): (r: string)
    ensures |s| == 1 ==> r == s[0]
    ensures s == [] ==> r == ""
  {
    if s == [] then ""
    else if |s| == 1 then s[0]
    else Join(s[..|s| - 1], sep) + sep + s[|s| - 1]
  }

  /** In a sequence without duplicates every element occurs exactly once. */
  lemma {:induction false} CountInDistinct<T>(all: seq<T>, x: T)
    requires Distinct(all)
    ensures Count(all, x) == if x in all then 1 else 0
  {
    if all != [] {
      var all' := all[..|all| - 1];
      assert all == all' + [all[|all| - 1]];
      CountInDistinct(all', x);
      if all[|all| - 1] == x {
        assert x !in all' by {
          forall i | 0 <= i < |all'| ensures all'[i] != x {
            assert all[i] == all'[i];
          }
        }
      }
    }
  }

  /** The number of elements of `s` equal to some key of `keys`, counted key by key. */
  function SumCounts<T(==)>(s: seq<T>, keys: seq<T>): nat
  {
    if keys == [] then 0
    else SumCounts(s, keys[..|keys| - 1]) + Count(s, keys[|keys| - 1])
  }

  /** The sum of the entries of a map of counts at the given keys, absent keys counting 0. */
  function SumOver<T(==)>(m: map<T, nat>, keys: seq<T>): nat
  {
    if keys == [] then 0
    else
      var k := keys[|keys| - 1];
      SumOver(m, keys[..|keys| - 1]) + (if k in m then m[k] else 0)
  }

  lemma {:induction false} SumCountsSnoc<T>(s: seq<T>, x: T, keys: seq<T>)
    ensures SumCounts(s + [x], keys) == SumCounts(s, keys) + Count(keys, x)
  {
    if keys != [] {
      SumCountsSnoc(s, x, keys[..|keys| - 1]);
      assert (s + [x])[..|s + [x]| - 1] == s;
    }
  }

  /**
   * Counting key by key over a list that names every possible element once accounts for every
   * element of `s`: the per-key counts add up to `|s|`.
   */
  lemma {:induction false} SumCountsPartition<T>(s: seq<T>, keys: seq<T>)
    requires Distinct(keys)
    requires forall i :: 0 <= i < |s| ==> s[i] in keys
    ensures SumCounts(s, keys) == |s|
  {
    if s != [] {
      var s' := s[..|s| - 1];
      assert s == s' + [s[|s| - 1]];
      SumCountsPartition(s', keys);
      SumCountsSnoc(s', s[|s| - 1], keys);
      CountInDistinct(keys, s[|s| - 1]);
    } else {
      SumCountsOfEmpty(keys);
    }
  }

  lemma {:induction false} SumCountsOfEmpty<T>(keys: seq<T>)
    ensures SumCounts([], keys) == 0
  {
    if keys != [] {
      SumCountsOfEmpty(keys[..|keys| - 1]);
    }
  }

  /** A map of counts that agrees with `Count` on `keys` sums to the same total over `keys`. */
  lemma {:induction false} SumOverCounts<T>(m: map<T, nat>, s: seq<T>, keys: seq<T>)
    requires forall k :: k in keys ==> (if k in m then m[k] else 0) == Count(s, k)
    ensures SumOver(m, keys) == SumCounts(s, keys)
  {
    if keys != [] {
      SumOverCounts(m, s, keys[..|keys| - 1]);
    }
  }

  /** The counts in a tally, read over a list naming every possible key once, add up to `|s|`. */
  lemma TallySumsToLength<T>(s: seq<T>, keys: seq<T>)
    requires Distinct(keys)
    requires forall i :: 0 <= i < |s| ==> s[i] in keys
    ensures SumOver(Tally(s), keys) == |s|
  {
    TallyCounts(s);
    SumOverCounts(Tally(s), s, keys);
    SumCountsPartition(s, keys);
  }
}
