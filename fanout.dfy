/** What one `broadcastToTable` call does to a table's subscriber list
    (lib/store.ts:166-180), as a function of the list and of which channels
    are dead. The store walks the list with `forEach` and, when a send
    fails, `splice`s the failed channel out of the very array it is
    walking. `forEach` fixes the number of steps at the starting length and
    skips indices past the current end, so the channel that slides into the
    freed slot is never visited in that broadcast. */
module Fanout {

  /** An opaque handle on one open event-stream controller. */
  datatype Channel = Channel(handle: nat)

  /** The channels a broadcast delivered to, in order, and the list left
      behind once failed channels were spliced out. */
  datatype Delivery = Delivery(sent: seq<Channel>, kept: seq<Channel>)

  predicate NoDuplicates(list: seq<Channel>) {
    forall i, j :: 0 <= i < j < |list| ==> list[i] != list[j]
  }

  /** `list.indexOf(c)`: the first position holding `c`. */
  function IndexOf(list: seq<Channel>, c: Channel): (i: nat)
    requires c in list
    ensures i < |list| && list[i] == c
    ensures c !in list[..i]
  {
    if list[0] == c then 0 else 1 + IndexOf(list[1..], c)
  }

  /** `removeSSEConnection`'s edit of a list: drop the first occurrence of
      `c`, if any. */
  function RemoveFirst(list: seq<Channel>, c: Channel): seq<Channel> {
    if c !in list then list
    else
      var i := IndexOf(list, c);
      list[..i] + list[i + 1..]
  }

  /** Removing drops exactly one copy of `c` when there is one. */
  lemma RemoveFirstMultiset(list: seq<Channel>, c: Channel)
    ensures c !in list ==> RemoveFirst(list, c) == list
    ensures c in list ==> |RemoveFirst(list, c)| == |list| - 1
    ensures multiset(RemoveFirst(list, c)) == multiset(list) - multiset{c}
  {
    if c in list {
      var i := IndexOf(list, c);
      assert list == list[..i] + [c] + list[i + 1..];
    }
  }

  /** The `forEach` walk from index `k`, with `len` the length the walk
      started with. A channel in `dead` fails its send and is removed by
      first occurrence; any other channel receives the message. */
  function Walk(list: seq<Channel>, dead: set<Channel>, k: nat, len: nat): Delivery
    decreases len - k
  {
    if k >= len then Delivery([], list)
    else if k >= |list| then Walk(list, dead, k + 1, len)
    else if list[k] in dead then Walk(RemoveFirst(list, list[k]), dead, k + 1, len)
    else
      var rest := Walk(list, dead, k + 1, len);
      Delivery([list[k]] + rest.sent, rest.kept)
  }

  /** The walk delivers only to live channels of the list. */
  lemma {:induction false} WalkSendsToLiveOnly(list: seq<Channel>, dead: set<Channel>, k: nat, len: nat)
    ensures forall c :: c in Walk(list, dead, k, len).sent ==> c in list && c !in dead
    decreases len - k
  {
    if k < len && k < |list| {
      if list[k] in dead {
        var shorter := RemoveFirst(list, list[k]);
        RemoveFirstMultiset(list, list[k]);
        WalkSendsToLiveOnly(shorter, dead, k + 1, len);
        forall c | c in shorter ensures c in list {
          assert multiset(shorter)[c] > 0;
        }
      } else {
        WalkSendsToLiveOnly(list, dead, k + 1, len);
      }
    } else if k < len {
      WalkSendsToLiveOnly(list, dead, k + 1, len);
    }
  }

  /** The walk removes only dead channels, and never a live one. */
  lemma {:induction false} WalkKeepsLive(list: seq<Channel>, dead: set<Channel>, k: nat, len: nat)
    ensures multiset(Walk(list, dead, k, len).kept) <= multiset(list)
    ensures forall c :: c !in dead ==> multiset(Walk(list, dead, k, len).kept)[c] == multiset(list)[c]
    decreases len - k
  {
    if k < len && k < |list| {
      if list[k] in dead {
        RemoveFirstMultiset(list, list[k]);
        WalkKeepsLive(RemoveFirst(list, list[k]), dead, k + 1, len);
      } else {
        WalkKeepsLive(list, dead, k + 1, len);
      }
    } else if k < len {
      WalkKeepsLive(list, dead, k + 1, len);
    }
  }

  /** One broadcast over the whole list. */
  function Broadcast(list: seq<Channel>, dead: set<Channel>): Delivery {
    Walk(list, dead, 0, |list|)
  }

  /** A reference reading of the walk on a list without repeated channels:
      a live channel receives the message and stays; a dead one is dropped,
      and the channel right after it is passed over (neither sent to nor
      checked) and stays. */
  function SkipAfterFailure(list: seq<Channel>, dead: set<Channel>): Delivery
    decreases |list|
  {
    if list == [] then Delivery([], [])
    else if list[0] !in dead then
      var r := SkipAfterFailure(list[1..], dead);
      Delivery([list[0]] + r.sent, [list[0]] + r.kept)
    else if |list| == 1 then Delivery([], [])
    else
      var r := SkipAfterFailure(list[2..], dead);
      Delivery(r.sent, [list[1]] + r.kept)
  }

  /** Once the index has run past the end of the list, the remaining steps
      visit nothing. */
  lemma {:induction false} WalkPastEnd(list: seq<Channel>, dead: set<Channel>, k: nat, len: nat)
    requires k >= |list|
    ensures Walk(list, dead, k, len) == Delivery([], list)
    decreases len - k
  {
    if k < len {
      WalkPastEnd(list, dead, k + 1, len);
    }
  }

  lemma NoDuplicatesDropAt(list: seq<Channel>, i: nat)
    requires NoDuplicates(list) && i < |list|
    ensures NoDuplicates(list[..i] + list[i + 1..])
  {
    var r := list[..i] + list[i + 1..];
    forall p, q | 0 <= p < q < |r| ensures r[p] != r[q] {
      var p' := if p < i then p else p + 1;
      var q' := if q < i then q else q + 1;
      assert r[p] == list[p'] && r[q] == list[q'];
    }
  }

  lemma AppendShift(a: seq<Channel>, x: Channel, b: seq<Channel>)
    ensures (a + [x]) + b == a + ([x] + b)
  {
  }

  /** On a list without repeated channels the first occurrence of the
      channel at `i` is position `i` itself. */
  lemma RemoveFirstAt(list: seq<Channel>, i: nat)
    requires NoDuplicates(list) && i < |list|
    ensures RemoveFirst(list, list[i]) == list[..i] + list[i + 1..]
    ensures NoDuplicates(list[..i] + list[i + 1..])
  {
    var j := IndexOf(list, list[i]);
    assert j == i;
    NoDuplicatesDropAt(list, i);
  }

  /** The walk from position `|done|` over `done + todo`, where `len`
      exceeds the list length by the number of removals so far. */
  lemma {:induction false} WalkIsSkipAfterFailure(done: seq<Channel>, todo: seq<Channel>, dead: set<Channel>, extra: nat)
    requires NoDuplicates(done + todo)
    ensures Walk(done + todo, dead, |done|, |done| + |todo| + extra)
         == Delivery(SkipAfterFailure(todo, dead).sent, done + SkipAfterFailure(todo, dead).kept)
    decreases |todo|, 2
  {
    var list := done + todo;
    var len := |done| + |todo| + extra;
    if todo == [] {
      assert list == done && done + [] == done;
      WalkPastEnd(list, dead, |done|, len);
    } else if todo[0] !in dead {
      var x := todo[0];
      var done' := done + [x];
      assert list[|done|] == x;
      assert list == done' + todo[1..];
      assert Walk(list, dead, |done|, len).sent == [x] + Walk(list, dead, |done'|, len).sent;
      WalkIsSkipAfterFailure(done', todo[1..], dead, extra);
      var rest := SkipAfterFailure(todo[1..], dead);
      assert SkipAfterFailure(todo, dead) == Delivery([x] + rest.sent, [x] + rest.kept);
      AppendShift(done, x, rest.kept);
    } else {
      WalkSkipsAfterDead(done, todo, dead, extra);
    }
  }

  /** The case of `WalkIsSkipAfterFailure` where the next channel is dead. */
  lemma {:induction false} WalkSkipsAfterDead(done: seq<Channel>, todo: seq<Channel>, dead: set<Channel>, extra: nat)
    requires NoDuplicates(done + todo)
    requires todo != [] && todo[0] in dead
    ensures Walk(done + todo, dead, |done|, |done| + |todo| + extra)
         == Delivery(SkipAfterFailure(todo, dead).sent, done + SkipAfterFailure(todo, dead).kept)
    decreases |todo|, 1
  {
    var list := done + todo;
    var len := |done| + |todo| + extra;
    var shorter := done + todo[1..];
    DropAtSeam(done, todo);
    assert Walk(list, dead, |done|, len) == Walk(shorter, dead, |done| + 1, len);
    if |todo| == 1 {
      assert shorter == done;
      WalkPastEnd(shorter, dead, |done| + 1, len);
      assert done + [] == done;
    } else {
      WalkPastSkipped(done, todo, dead, extra);
    }
  }

  /** After a dead channel was spliced out, the walk resumes one position
      past the channel that slid into its slot. */
  lemma {:induction false} WalkPastSkipped(done: seq<Channel>, todo: seq<Channel>, dead: set<Channel>, extra: nat)
    requires |todo| >= 2 && todo[0] in dead
    requires NoDuplicates(done + todo[1..])
    ensures Walk(done + todo[1..], dead, |done| + 1, |done| + |todo| + extra)
         == Delivery(SkipAfterFailure(todo, dead).sent, done + SkipAfterFailure(todo, dead).kept)
    decreases |todo|, 0
  {
    var y := todo[1];
    var rest := todo[2..];
    var done' := done + [y];
    assert todo[1..] == [y] + rest;
    AppendShift(done, y, rest);
    assert done + todo[1..] == done' + rest;
    assert |done| + |todo| + extra == |done'| + |rest| + (extra + 1);
    WalkIsSkipAfterFailure(done', rest, dead, extra + 1);
    var r := SkipAfterFailure(rest, dead);
    assert SkipAfterFailure(todo, dead) == Delivery(r.sent, [y] + r.kept);
    AppendShift(done, y, r.kept);
  }

  /** Splicing out the channel at the seam of `done + todo`. */
  lemma DropAtSeam(done: seq<Channel>, todo: seq<Channel>)
    requires NoDuplicates(done + todo) && todo != []
    ensures RemoveFirst(done + todo, todo[0]) == done + todo[1..]
    ensures NoDuplicates(done + todo[1..])
  {
    var list := done + todo;
    assert list[|done|] == todo[0];
    RemoveFirstAt(list, |done|);
    assert list[..|done|] == done;
    assert list[|done| + 1..] == todo[1..];
  }

  /** On a list without repeated channels, a broadcast behaves as
      `SkipAfterFailure` says. */
  lemma BroadcastSkipsAfterFailure(list: seq<Channel>, dead: set<Channel>)
    requires NoDuplicates(list)
    ensures Broadcast(list, dead) == SkipAfterFailure(list, dead)
  {
    assert [] + list == list;
    WalkIsSkipAfterFailure([], list, dead, 0);
  }

  /** When every send succeeds, every subscriber receives the message in
      list order and the list is left as it was. */
  lemma {:induction false} WalkWithoutFailures(list: seq<Channel>, dead: set<Channel>, k: nat)
    requires k <= |list|
    requires forall c :: c in list ==> c !in dead
    ensures Walk(list, dead, k, |list|) == Delivery(list[k..], list)
    decreases |list| - k
  {
    if k < |list| {
      WalkWithoutFailures(list, dead, k + 1);
      assert list[k..] == [list[k]] + list[k + 1..];
    }
  }

  lemma BroadcastWithoutFailures(list: seq<Channel>, dead: set<Channel>)
    requires forall c :: c in list ==> c !in dead
    ensures Broadcast(list, dead) == Delivery(list, list)
  {
    WalkWithoutFailures(list, dead, 0);
    assert list[0..] == list;
  }

  /** The concrete case: with two subscribers and the first one dead, the
      second one gets nothing although its send would have succeeded. */
  lemma FailedChannelHidesNext(a: Channel, b: Channel)
    requires a != b
    ensures Broadcast([a, b], {a}) == Delivery([], [b])
  {
    BroadcastSkipsAfterFailure([a, b], {a});
    assert [a, b][2..] == [];
  }
}
