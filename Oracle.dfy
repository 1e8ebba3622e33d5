/**
 * The per-channel activity oracle (ChatOracle in contextualizethat/oracle.py):
 * a time-windowed list of recent messages and a capped history of the list's
 * length, both kept in a key/value store.
 */
module Oracle {
  import opened Wrappers
  import opened Messages
  import opened Database

  /** Messages older than the newest fed message by more than this are dropped. */
  const RECENT_TIME_WINDOW: real := (10 * 60) as real
  /** The count history keeps at most this many entries. */
  const COUNTS: nat := 100000

  /** The store keys of the two slots (the names of the source's Key enum). */
  const RECENT_MESSAGES: string := "RECENT_MESSAGES"
  const MESSAGE_COUNTS: string := "MESSAGE_COUNTS"

  /**
   * A stored value. The source's store is untyped and holds a list in each
   * slot; the model tags the list of messages and the list of counts.
   */
  datatype Slot = MessageList(msgs: seq<Message>) | CountList(counts: seq<nat>)

  function Last<T>(s: seq<T>): (x: T)
    requires |s| > 0
  {
    s[|s| - 1]
  }

  // ---------------------------------------------------------------------------
  // Stable sort by time (Python's `sorted(..., key=_message_time)`)
  // ---------------------------------------------------------------------------

  ghost predicate SortedByTime(s: seq<Message>)
  {
    forall i, j :: 0 <= i < j < |s| ==> s[i].time <= s[j].time
  }

  /** The messages of `s` whose time is exactly `k`, in their order in `s`. */
  function WithTime(s: seq<Message>, k: real): (r: seq<Message>)
  {
    if s == [] then []
    else (if s[0].time == k then [s[0]] else []) + WithTime(s[1..], k)
  }

  /** Places `m` just before the first message of `s` whose time is at least `m`'s. */
  function InsertByTime(m: Message, s: seq<Message>): (r: seq<Message>)
    ensures |r| == |s| + 1
  {
    if s == [] || m.time <= s[0].time then [m] + s
    else [s[0]] + InsertByTime(m, s[1..])
  }

  /** Insertion sort by time; an earlier message is inserted before later equal-time ones. */
  function SortByTime(ms: seq<Message>): (r: seq<Message>)
    ensures |r| == |ms|
  {
    if ms == [] then [] else InsertByTime(ms[0], SortByTime(ms[1..]))
  }

  lemma {:induction false} InsertPermutes(m: Message, s: seq<Message>)
    ensures multiset(InsertByTime(m, s)) == multiset(s) + multiset{m}
  {
    if s != [] && m.time > s[0].time {
      InsertPermutes(m, s[1..]);
      assert s == [s[0]] + s[1..];
    }
  }

  lemma {:induction false} InsertKeepsSorted(m: Message, s: seq<Message>)
    requires SortedByTime(s)
    ensures SortedByTime(InsertByTime(m, s))
  {
    if s != [] && m.time > s[0].time {
      InsertKeepsSorted(m, s[1..]);
      InsertPermutes(m, s[1..]);
      var r := InsertByTime(m, s[1..]);
      forall i | 0 <= i < |r| ensures s[0].time <= r[i].time {
        assert r[i] in multiset(r);
        if r[i] != m {
          assert r[i] in multiset(s[1..]);
          var j :| 0 <= j < |s[1..]| && s[1..][j] == r[i];
          assert s[j + 1] == r[i];
        }
      }
    }
  }

  /** The sort returns its input reordered by ascending time. */
  lemma {:induction false} SortByTimeSortsAndPermutes(ms: seq<Message>)
    ensures SortedByTime(SortByTime(ms))
    ensures multiset(SortByTime(ms)) == multiset(ms)
  {
    if ms != [] {
      SortByTimeSortsAndPermutes(ms[1..]);
      InsertKeepsSorted(ms[0], SortByTime(ms[1..]));
      InsertPermutes(ms[0], SortByTime(ms[1..]));
      assert ms == [ms[0]] + ms[1..];
    }
  }

  lemma {:induction false} WithTimeAppend(a: seq<Message>, b: seq<Message>, k: real)
    ensures WithTime(a + b, k) == WithTime(a, k) + WithTime(b, k)
  {
    if a != [] {
      WithTimeAppend(a[1..], b, k);
      assert (a + b)[1..] == a[1..] + b;
    } else {
      assert a + b == b;
    }
  }

  lemma {:induction false} InsertStable(m: Message, s: seq<Message>, k: real)
    ensures WithTime(InsertByTime(m, s), k) ==
      (if m.time == k then [m] else []) + WithTime(s, k)
  {
    if s == [] || m.time <= s[0].time {
      WithTimeAppend([m], s, k);
    } else {
      var r := InsertByTime(m, s[1..]);
      InsertStable(m, s[1..], k);
      WithTimeAppend([s[0]], r, k);
      WithTimeAppend([s[0]], s[1..], k);
      assert [s[0]] + s[1..] == s;
    }
  }

  /** The sort is stable: messages of equal time keep their relative order. */
  lemma {:induction false} SortByTimeStable(ms: seq<Message>, k: real)
    ensures WithTime(SortByTime(ms), k) == WithTime(ms, k)
  {
    if ms != [] {
      SortByTimeStable(ms[1..], k);
      InsertStable(ms[0], SortByTime(ms[1..]), k);
    }
  }

  /** The last message of the sorted batch is a batch message of greatest time. */
  lemma SortedLastIsLatest(ms: seq<Message>)
    requires ms != []
    ensures Last(SortByTime(ms)) in ms
    ensures forall m :: m in ms ==> m.time <= Last(SortByTime(ms)).time
  {
    var r := SortByTime(ms);
    SortByTimeSortsAndPermutes(ms);
    assert r[|r| - 1] in multiset(r);
    forall m | m in ms ensures m.time <= Last(r).time {
      assert m in multiset(r);
      var i :| 0 <= i < |r| && r[i] == m;
    }
  }

  // ---------------------------------------------------------------------------
  // The time window
  // ---------------------------------------------------------------------------

  /** `filter(time_check, s)`: the messages of `s` at or after `t`, in order. */
  function Window(s: seq<Message>, t: real): (r: seq<Message>)
    ensures |r| <= |s|
  {
    if s == [] then []
    else (if s[0].time >= t then [s[0]] else []) + Window(s[1..], t)
  }

  /** A message is kept exactly when it was in `s` and is at or after `t`. */
  lemma {:induction false} WindowMembers(s: seq<Message>, t: real)
    ensures forall m :: m in Window(s, t) <==> m in s && m.time >= t
  {
    if s != [] {
      WindowMembers(s[1..], t);
      assert s == [s[0]] + s[1..];
    }
  }

  lemma {:induction false} WindowAppend(a: seq<Message>, b: seq<Message>, t: real)
    ensures Window(a + b, t) == Window(a, t) + Window(b, t)
  {
    if a != [] {
      WindowAppend(a[1..], b, t);
      assert (a + b)[1..] == a[1..] + b;
    } else {
      assert a + b == b;
    }
  }

  /** A last element that passes the window stays last. */
  lemma {:induction false} WindowKeepsLast(s: seq<Message>, t: real)
    requires s != [] && Last(s).time >= t
    ensures Window(s, t) != [] && Last(Window(s, t)) == Last(s)
  {
    if |s| > 1 {
      WindowKeepsLast(s[1..], t);
    }
  }

  // ---------------------------------------------------------------------------
  // The feed, as functions of the stored state
  // ---------------------------------------------------------------------------

  /** Messages before this time are dropped: the newest batch time minus the window. */
  function Threshold(batch: seq<Message>): (t: real)
    requires batch != []
    ensures exists m :: m in batch && t == m.time - RECENT_TIME_WINDOW
    ensures forall m :: m in batch ==> m.time - RECENT_TIME_WINDOW <= t
  {
    SortedLastIsLatest(batch);
    Last(SortByTime(batch)).time - RECENT_TIME_WINDOW
  }

  /** The recent list after feeding a non-empty batch (`_update_recent`). */
  function UpdatedRecents(recents: seq<Message>, batch: seq<Message>): (r: seq<Message>)
    requires batch != []
    ensures |r| <= |recents| + |batch|
    ensures forall m :: m in r ==> m.time >= Threshold(batch)
  {
    WindowMembers(recents + SortByTime(batch), Threshold(batch));
    Window(recents + SortByTime(batch), Threshold(batch))
  }

  /** The count history once the oldest entries beyond `COUNTS` are evicted. */
  function Capped(counts: seq<nat>): (r: seq<nat>)
    ensures |r| <= COUNTS
    ensures |r| == if |counts| <= COUNTS then |counts| else COUNTS
    ensures counts == counts[..|counts| - |r|] + r
  {
    if |counts| <= COUNTS then counts else counts[|counts| - COUNTS..]
  }

  /**
   * What a non-empty feed does to the recent list: every kept message lies in
   * the window; a message is kept exactly when it was recent or fed and lies in
   * the window; the old recent messages come first, in their order, then the
   * batch sorted by time; and the last message is a batch message of greatest time.
   */
  lemma FeedRecents(recents: seq<Message>, batch: seq<Message>)
    requires batch != []
    ensures var r := UpdatedRecents(recents, batch);
      && (forall m :: m in r ==> m.time >= Threshold(batch))
      && (forall m :: m in r <==> (m in recents || m in batch) && m.time >= Threshold(batch))
      && r == Window(recents, Threshold(batch)) + Window(SortByTime(batch), Threshold(batch))
      && r != [] && Last(r) == Last(SortByTime(batch)) && Last(r) in batch
      && (forall m :: m in batch ==> m.time <= Last(r).time)
  {
    var sorted := SortByTime(batch);
    var t := Threshold(batch);
    WindowMembers(recents + sorted, t);
    WindowAppend(recents, sorted, t);
    SortByTimeSortsAndPermutes(batch);
    assert forall m :: m in sorted <==> m in batch by {
      forall m ensures m in sorted <==> m in batch {
        assert m in sorted <==> m in multiset(sorted);
      }
    }
    WindowKeepsLast(sorted, t);
    SortedLastIsLatest(batch);
  }

  /**
   * One feed on a history within bound appends the new count and evicts at
   * most the single oldest entry.
   */
  lemma CappedAppend(counts: seq<nat>, n: nat)
    requires |counts| <= COUNTS
    ensures Last(Capped(counts + [n])) == n
    ensures Capped(counts + [n]) == if |counts| < COUNTS then counts + [n] else counts[1..] + [n]
  {
  }

  /**
   * The source does not re-sort after concatenating: a batch older than the
   * recent list leaves the list out of time order, and the last message (the
   * one the oracle reports as latest) is not the one of greatest time.
   */
  lemma LateBatchLeavesListUnsorted()
    ensures var a := Message("a", "u", "x", 1000.0);
      var b := Message("b", "u", "y", 900.0);
      && UpdatedRecents([a], [b]) == [a, b]
      && !SortedByTime(UpdatedRecents([a], [b]))
      && Last(UpdatedRecents([a], [b])).time < a.time
  {
    var a := Message("a", "u", "x", 1000.0);
    var b := Message("b", "u", "y", 900.0);
    assert SortByTime([b]) == [b];
    assert Window([a, b], 300.0) == [a, b];
  }

  // ---------------------------------------------------------------------------
  // The oracle object
  // ---------------------------------------------------------------------------

  class ChatOracle {
    const db: DictDatabase<string, Slot>

    /** Both slots are present and hold the kind of list they are named for. */
    ghost predicate Valid()
      reads this, db
    {
      && RECENT_MESSAGES in db.store && db.store[RECENT_MESSAGES].MessageList?
      && MESSAGE_COUNTS in db.store && db.store[MESSAGE_COUNTS].CountList?
    }

    ghost function Recents(): seq<Message>
      reads this, db
      requires Valid()
    {
      db.store[RECENT_MESSAGES].msgs
    }

    ghost function Counts(): seq<nat>
      reads this, db
      requires Valid()
    {
      db.store[MESSAGE_COUNTS].counts
    }

    /** Initializes both slots to empty lists unless they already hold state. */
    constructor (db: DictDatabase<string, Slot>)
      requires RECENT_MESSAGES in db.store ==> db.store[RECENT_MESSAGES].MessageList?
      requires MESSAGE_COUNTS in db.store ==> db.store[MESSAGE_COUNTS].CountList?
      modifies db
      ensures this.db == db && Valid()
      ensures RECENT_MESSAGES in old(db.store) ==> Recents() == old(db.store[RECENT_MESSAGES].msgs)
      ensures RECENT_MESSAGES !in old(db.store) ==> Recents() == []
      ensures MESSAGE_COUNTS in old(db.store) ==> Counts() == old(db.store[MESSAGE_COUNTS].counts)
      ensures MESSAGE_COUNTS !in old(db.store) ==> Counts() == []
      ensures forall k :: k in old(db.store) ==> k in db.store && db.store[k] == old(db.store[k])
      ensures db.store.Keys == old(db.store).Keys + {RECENT_MESSAGES, MESSAGE_COUNTS}
    {
      this.db := db;
      new;
      db.Initialize(RECENT_MESSAGES, MessageList([]));
      db.Initialize(MESSAGE_COUNTS, CountList([]));
    }

    /** The last message of the recent list, or none when it is empty. */
    method GetLatestMessage() returns (latest: Option<Message>)
      requires Valid()
      ensures latest.None? <==> Recents() == []
      ensures latest.Some? ==> latest.value == Last(Recents())
    {
      var slot := db.Get(RECENT_MESSAGES);
      var recents := slot.msgs;
      if |recents| == 0 {
        latest := None;
      } else {
        latest := Some(recents[|recents| - 1]);
      }
    }

    /** The length of the recent list. */
    method GetNumMessages() returns (n: nat)
      requires Valid()
      ensures n == |Recents()|
    {
      var slot := db.Get(RECENT_MESSAGES);
      n := |slot.msgs|;
    }

    /** The count history, oldest first. */
    method GetMessageCounts() returns (counts: seq<nat>)
      requires Valid()
      ensures counts == Counts()
    {
      var slot := db.Get(MESSAGE_COUNTS);
      counts := slot.counts;
    }

    /**
     * Feeds a batch: nothing happens for an empty batch; otherwise the recent
     * list is updated and one count, its new length, is appended to the history.
     */
    method FeedMessages(batch: seq<Message>)
      requires Valid()
      modifies db
      ensures Valid()
      ensures batch == [] ==> db.store == old(db.store)
      ensures batch != [] ==> Recents() == UpdatedRecents(old(Recents()), batch)
      ensures batch != [] ==> Counts() == Capped(old(Counts()) + [|Recents()|])
      ensures db.store.Keys == old(db.store).Keys
      ensures forall k :: k in old(db.store) && k != RECENT_MESSAGES && k != MESSAGE_COUNTS ==>
        db.store[k] == old(db.store)[k]
    {
      if |batch| == 0 {
        return;
      }
      UpdateRecent(batch);
      AddCounts();
    }

    /** `_update_recent`: keeps the window of the old list followed by the sorted batch. */
    method UpdateRecent(batch: seq<Message>)
      requires Valid() && batch != []
      modifies db
      ensures Valid()
      ensures Recents() == UpdatedRecents(old(Recents()), batch)
      ensures db.store == old(db.store)[RECENT_MESSAGES := MessageList(Recents())]
    {
      var slot := db.Get(RECENT_MESSAGES);
      var sorted := SortByTime(batch);
      var t := sorted[|sorted| - 1].time - RECENT_TIME_WINDOW;
      var combined := Window(slot.msgs + sorted, t);
      db.Set(RECENT_MESSAGES, MessageList(combined));
    }

    /** `_add_counts`: appends the recent list's length, then pops from the front while over `COUNTS`. */
    method AddCounts()
      requires Valid()
      modifies db
      ensures Valid()
      ensures Counts() == Capped(old(Counts()) + [|Recents()|])
      ensures db.store == old(db.store)[MESSAGE_COUNTS := CountList(Counts())]
    {
      var slot := db.Get(MESSAGE_COUNTS);
      var recents := db.Get(RECENT_MESSAGES);
      var counts := slot.counts + [|recents.msgs|];
      ghost var appended := counts;
      while |counts| > COUNTS
        invariant |counts| <= |appended|
        invariant counts == appended[|appended| - |counts|..]
        invariant |counts| >= if |appended| > COUNTS then COUNTS else |appended|
        decreases |counts|
      {
        counts := counts[1..];
      }
      db.Set(MESSAGE_COUNTS, CountList(counts));
    }
  }
}
