/** Shared vocabulary of the tournament engine: identifiers, optional values,
    and the errors every service raises (an HTTP-like kind plus a message code).
    The codes are the names of the message constants of the error-handling layer. */
module Core {

  /** Ids of stored documents (matches, series, playoffs, groups). The store
      hands out a fresh one per created document. */
  type Id = nat

  /** Ids of teams, as the caller spells them; the empty string is "no id". */
  type TeamId = string

  datatype Option<+T> = None | Some(value: T)

  /** The status every thrown error carries. `Internal` stands for the
      TypeError the runtime raises when the code dereferences a missing
      document or a null value; it aborts the operation like the others. */
  datatype ErrorKind = BadRequest | Conflict | NotFound | Internal

  datatype Code =
    | EmptyTeamId
    | TeamNotExist(team: TeamId)
    | EqualTeamIds
    | ReadonlySeria
    | WrongSeriaDuration
    | MapsNotMatch
    | ReadonlyPlayoff
    | SeriaIsComplete
    | SeriaIsEmpty
    | MapPoolIsEmpty
    | MapPoolUpdateDisallowed
    | EqualScoreInSeriaMatch
    | PlayoffSchemaNotValid
    | TeamsAmountNotValid
    | InvalidSeriaId
    | CannotRemoveRound
    | GroupWithoutTeams
    | IncorrectGroupTables
    | IncorrectGroupMatches
    | IncorrectGroupSeries
    | IncorrectGroupGame(game: Id)
    | LastGroupStage
    | IncompleteGroupStage
    | CannotRemoveStage
    | TypeError

  datatype Error = Error(kind: ErrorKind, code: Code)

  /** Outcome of an operation: its value, or the error it threw. */
  datatype Result<+T> = Ok(value: T) | Err(error: Error) {
    predicate IsFailure() {
      Err?
    }

    function PropagateFailure<U>(): Result<U>
      requires Err?
    {
      Err(error)
    }

    function Extract(): T
      requires Ok?
    {
      value
    }
  }

  /** The error raised by a dereference of a missing document. */
  const Crash := Error(Internal, TypeError)

  /** Count of the elements of `s` that satisfy `p` (the `filter(p).length`
      idiom of the source). */
  function CountIf<T>(s: seq<T>, p: T -> bool): (n: nat)
    ensures n <= |s|
  {
    if s == [] then 0
    else CountIf(s[..|s| - 1], p) + (if p(s[|s| - 1]) then 1 else 0)
  }

  lemma {:induction false} CountIfAppend<T>(s: seq<T>, x: T, p: T -> bool)
    ensures CountIf(s + [x], p) == CountIf(s, p) + (if p(x) then 1 else 0)
  {
    assert (s + [x])[..|s + [x]| - 1] == s;
  }

  lemma {:induction false} CountIfUpdate<T>(s: seq<T>, k: nat, x: T, p: T -> bool)
    requires k < |s|
    ensures CountIf(s[k := x], p)
            == CountIf(s, p) - (if p(s[k]) then 1 else 0) + (if p(x) then 1 else 0)
  {
    var n := |s|;
    if k == n - 1 {
      assert s[k := x][..n - 1] == s[..n - 1];
    } else {
      CountIfUpdate(s[..n - 1], k, x, p);
      assert s[k := x][..n - 1] == s[..n - 1][k := x];
    }
  }

  /** Every element satisfies `p` exactly when none is counted as failing it. */
  lemma {:induction false} CountIfZero<T>(s: seq<T>, p: T -> bool)
    ensures CountIf(s, p) == 0 <==> forall i :: 0 <= i < |s| ==> !p(s[i])
  {
    if s != [] {
      CountIfZero(s[..|s| - 1], p);
      assert forall i :: 0 <= i < |s| - 1 ==> s[..|s| - 1][i] == s[i];
    }
  }

  /** Counting distributes over concatenation. */
  lemma {:induction false} CountIfConcat<T>(a: seq<T>, b: seq<T>, p: T -> bool)
    ensures CountIf(a + b, p) == CountIf(a, p) + CountIf(b, p)
  {
    if b == [] {
      assert a + b == a;
    } else {
      var b' := b[..|b| - 1];
      CountIfConcat(a, b', p);
      assert a + b == (a + b') + [b[|b| - 1]];
      assert b == b' + [b[|b| - 1]];
      CountIfAppend(a + b', b[|b| - 1], p);
      CountIfAppend(b', b[|b| - 1], p);
    }
  }

  /** When every element satisfies `p`, all are counted. */
  lemma {:induction false} CountIfAll<T>(s: seq<T>, p: T -> bool)
    requires forall i :: 0 <= i < |s| ==> p(s[i])
    ensures CountIf(s, p) == |s|
  {
    if s != [] {
      CountIfAll(s[..|s| - 1], p);
    }
  }

  /** Counting over two lists that agree on `p` element by element. */
  lemma {:induction false} CountIfSame<T>(a: seq<T>, b: seq<T>, p: T -> bool)
    requires |a| == |b| && forall i :: 0 <= i < |a| ==> p(a[i]) == p(b[i])
    ensures CountIf(a, p) == CountIf(b, p)
  {
    if a != [] {
      CountIfSame(a[..|a| - 1], b[..|b| - 1], p);
    }
  }

  /** The error of the first element that `f` rejects, if any (a loop that
      throws at the first failing step). */
  function FirstError<T>(s: seq<T>, f: T -> Option<Error>): (e: Option<Error>)
    ensures e.None? <==> forall i :: 0 <= i < |s| ==> f(s[i]).None?
    ensures e.Some? ==> exists i :: 0 <= i < |s| && f(s[i]) == e
  {
    if s == [] then None
    else
      var e := FirstError(s[..|s| - 1], f);
      if e.Some? then e else f(s[|s| - 1])
  }

  /** An error among the first `n` elements is the first error of the whole list. */
  lemma {:induction false} FirstErrorPrefix<T>(s: seq<T>, f: T -> Option<Error>, n: nat)
    requires n <= |s| && FirstError(s[..n], f).Some?
    ensures FirstError(s, f) == FirstError(s[..n], f)
    decreases |s| - n
  {
    if n < |s| {
      var pre := s[..|s| - 1];
      assert pre[..n] == s[..n];
      FirstErrorPrefix(pre, f, n);
    } else {
      assert s[..n] == s;
    }
  }

  /** No element repeats. */
  predicate Distinct<T(==)>(s: seq<T>) {
    forall i, j :: 0 <= i < j < |s| ==> s[i] != s[j]
  }

  /** A prefix one element longer. */
  lemma TakeOneMore<T>(s: seq<T>, i: nat)
    requires i < |s|
    ensures s[..i + 1] == s[..i] + [s[i]]
    ensures s[..i + 1][..i] == s[..i] && s[..i + 1][i] == s[i]
  {
  }

  /** Dropping the last element of a list without repeats leaves a list
      without repeats that lacks that element. */
  lemma DistinctInit<T>(s: seq<T>)
    requires Distinct(s) && s != []
    ensures Distinct(s[..|s| - 1]) && s[|s| - 1] !in s[..|s| - 1]
  {
  }

  /** A list without repeats has as many elements as its set. */
  lemma {:induction false} DistinctCard<T>(s: seq<T>)
    requires Distinct(s)
    ensures |set x | x in s| == |s|
  {
    if s != [] {
      var pre := s[..|s| - 1];
      var x := s[|s| - 1];
      DistinctCard(pre);
      assert x !in pre;
      assert (set y | y in s) == (set y | y in pre) + {x};
    }
  }

  /** Two lists without repeats and with the same elements have the same
      length. */
  lemma SameElementsSameLength<T>(a: seq<T>, b: seq<T>)
    requires Distinct(a) && Distinct(b) && forall x :: x in a <==> x in b
    ensures |a| == |b|
  {
    DistinctCard(a);
    DistinctCard(b);
    assert (set x | x in a) == (set x | x in b);
  }

  /** The elements of a list. */
  function SetOf<T(!new)>(s: seq<T>): (r: set<T>)
    ensures forall x :: x in r <==> x in s
  {
    set x | x in s
  }

  /** `m` is `base` with every key of `keys` set to its value under `f`. */
  predicate Overlaid<K(!new), V(==)>(base: map<K, V>, keys: seq<K>, f: K -> V, m: map<K, V>) {
    && m.Keys == base.Keys + SetOf(keys)
    && (forall k :: k in keys ==> m[k] == f(k))
    && (forall k :: k in base && k !in keys ==> m[k] == base[k])
  }

  /** Setting one more key of the list extends the overlay by that key. */
  lemma OverlaidStep<K(!new), V>(base: map<K, V>, keys: seq<K>, i: nat, f: K -> V, m: map<K, V>)
    requires i < |keys| && Overlaid(base, keys[..i], f, m)
    ensures Overlaid(base, keys[..i + 1], f, m[keys[i] := f(keys[i])])
  {
    TakeOneMore(keys, i);
  }
}
