/** The calculation history as a value: newest entry first, at most ten kept
    by each insertion, and the policy for what is loaded at start-up. */
module HistoryStore {

  /** How many entries an insertion keeps. */
  const Capacity: nat := 10

  function Min(a: int, b: int): int { if a < b then a else b }

  /** The first n elements of s, or all of s when it is shorter. */
  function Take<T>(s: seq<T>, n: nat): (t: seq<T>)
    ensures |t| == Min(n, |s|)
    ensures forall i :: 0 <= i < |t| ==> t[i] == s[i]
  {
    if n <= |s| then s[..n] else s
  }

  function Reverse<T>(s: seq<T>): (r: seq<T>)
    ensures |r| == |s|
    ensures forall i :: 0 <= i < |s| ==> r[i] == s[|s| - 1 - i]
  {
    if s == [] then [] else Reverse(s[1..]) + [s[0]]
  }

  /** The insertion `[newEntry, ...prev.slice(0, 9)]`: the new entry, then the
      first (at most) nine previous entries. It is `[e] + prev` cut to the
      capacity: nothing is dropped while prev holds fewer than ten entries, and
      from ten on, everything from prev[9] on is dropped. */
  function Push<T>(prev: seq<T>, e: T): (h: seq<T>)
    ensures h == Take([e] + prev, Capacity)
    ensures |h| <= Capacity
    ensures |prev| < Capacity ==> h == [e] + prev
    ensures |prev| >= Capacity ==> h == [e] + prev[..Capacity - 1]
  {
    [e] + prev[..Min(Capacity - 1, |prev|)]
  }

  /** The history after inserting es[0], es[1], ... in that order. */
  function PushAll<T>(prev: seq<T>, es: seq<T>): seq<T>
    decreases |es|
  {
    if es == [] then prev else PushAll(Push(prev, es[0]), es[1..])
  }

  /** After at least one insertion the history is the inserted entries, newest
      first, followed by the old history, all cut to the capacity. */
  lemma {:induction false} PushAllTakes<T>(prev: seq<T>, es: seq<T>)
    requires es != []
    ensures PushAll(prev, es) == Take(Reverse(es) + prev, Capacity)
    decreases |es|
  {
    var p1 := Push(prev, es[0]);
    if |es| == 1 {
      assert Reverse(es) == [es[0]];
    } else {
      PushAllTakes(p1, es[1..]);
      assert Reverse(es) == Reverse(es[1..]) + [es[0]];
      var r := Reverse(es[1..]);
      var lhs := Take(r + p1, Capacity);
      var rhs := Take(Reverse(es) + prev, Capacity);
      assert |lhs| == |rhs|;
      forall i | 0 <= i < |lhs| ensures lhs[i] == rhs[i] {
        if i >= |r| {
          assert lhs[i] == p1[i - |r|];
          assert rhs[i] == ([es[0]] + prev)[i - |r|];
        }
      }
    }
  }

  /** From an empty history, N insertions leave min(N, 10) entries: the most
      recent ones, newest first. */
  lemma RecentFirst<T>(es: seq<T>)
    ensures |PushAll([], es)| == Min(|es|, Capacity)
    ensures forall i :: 0 <= i < |PushAll([], es)| ==> PushAll([], es)[i] == es[|es| - 1 - i]
  {
    if es != [] {
      PushAllTakes([], es);
      assert Reverse(es) + [] == Reverse(es);
    }
  }

  /** What the persisted slot holds at start-up. */
  datatype Stored<T> =
    | Absent            // no value under the key (or an empty text)
    | Malformed         // a value that does not parse
    | Parsed(entries: seq<T>)

  /** The history right after start-up: empty unless the slot parsed, in which
      case the parsed entries, neither checked nor cut to the capacity. */
  function LoadHistory<T>(stored: Stored<T>): seq<T>
  {
    match stored
    case Absent => []
    case Malformed => []
    case Parsed(entries) => entries
  }
}
