/** The process-wide session cache (`SessionStore`): a map from session id to
    the saved session stamped with its last update, evicted after two hours
    of inactivity and with each conversation capped at 50 entries. Time is
    integer milliseconds since the epoch. */
module SessionStore {
  import opened Wrappers
  import opened Domain

  /** Two hours: an entry strictly older than this is evicted. */
  const InactivityWindowMs := 2 * 60 * 60 * 1000

  /** The most entries a stored conversation keeps. */
  const ConversationCap := 50

  /** A saved session: `{...session, lastUpdated}`. */
  datatype Entry = Entry(session: Session, lastUpdated: int)

  type Store = map<string, Entry>

  /** Strictly more than two hours since the entry was last touched. */
  predicate Expired(e: Entry, now: int) {
    now - e.lastUpdated > InactivityWindowMs
  }

  /** Every entry is filed under its own session's id. */
  ghost predicate WellKeyed(store: Store) {
    forall k :: k in store ==> store[k].session.id == k
  }

  /** `saveSession`: upsert the session under `id`, stamped with `now`. */
  function Save(store: Store, id: string, s: Session, now: int): (r: Store)
    ensures r.Keys == store.Keys + {id}
    ensures r[id] == Entry(s, now)
    ensures forall k :: k in store && k != id ==> r[k] == store[k]
    ensures WellKeyed(store) && s.id == id ==> WellKeyed(r)
  {
    store[id := Entry(s, now)]
  }

  /** What `getSession` returns, together with the store it leaves behind. */
  datatype Lookup = Lookup(store: Store, found: Option<Entry>)

  /** `getSession`: an entry is returned only while it is at most two hours
      old; an older entry is deleted and reported absent. */
  function Get(store: Store, id: string, now: int): (r: Lookup)
    ensures id !in store ==> r == Lookup(store, None)
    ensures id in store ==> (r.found.None? <==> Expired(store[id], now))
    ensures r.found.Some? ==> id in store && r.found.value == store[id] && r.store == store
    ensures r.found.None? ==> r.store == store - {id}
    ensures WellKeyed(store) ==> WellKeyed(r.store)
  {
    if id in store then
      if Expired(store[id], now) then Lookup(store - {id}, None)
      else Lookup(store, Some(store[id]))
    else Lookup(store, None)
  }

  /** The history cap: once the conversation exceeds 50 entries it is rewritten
      to its first entry followed by its latest 49. */
  function Cap(c: seq<Message>): (r: seq<Message>)
    ensures |c| <= ConversationCap ==> r == c
    ensures |c| > ConversationCap ==> |r| == ConversationCap
    ensures |r| <= |c|
    ensures c != [] ==> r != [] && r[0] == c[0] && r[|r| - 1] == c[|c| - 1]
    ensures |r| > 0 ==> r[1..] == c[|c| - (|r| - 1)..]
  {
    if |c| > ConversationCap then [c[0]] + c[|c| - (ConversationCap - 1)..] else c
  }

  /** `updateConversation`: append `msg` to the stored conversation, restamp
      the entry and apply the cap; an unknown id leaves the store as it is.
      The entry is not checked for expiry first. */
  function UpdateConversation(store: Store, id: string, msg: Message, now: int): (r: Store)
    ensures id !in store ==> r == store
    ensures r.Keys == store.Keys
    ensures forall k :: k in store && k != id ==> r[k] == store[k]
    ensures id in store ==>
      var before := store[id];
      && r[id].lastUpdated == now
      && r[id].session == before.session.(conversation := Cap(before.session.conversation + [msg]))
    ensures id in store && |store[id].session.conversation| < ConversationCap ==>
      r[id].session.conversation == store[id].session.conversation + [msg]
    ensures id in store ==> |r[id].session.conversation| <= ConversationCap
    ensures WellKeyed(store) ==> WellKeyed(r)
  {
    if id in store then
      var e := store[id];
      store[id := Entry(e.session.(conversation := Cap(e.session.conversation + [msg])), now)]
    else store
  }

  /** `deleteSession`: only `id` goes. */
  function Delete(store: Store, id: string): (r: Store)
    ensures r.Keys == store.Keys - {id}
    ensures forall k :: k in r ==> r[k] == store[k]
    ensures WellKeyed(store) ==> WellKeyed(r)
  {
    store - {id}
  }

  /** `cleanOldSessions`: the sweep keeps exactly the entries that are not
      expired at `now`, unchanged. */
  function CleanOldSessions(store: Store, now: int): (r: Store)
    ensures forall k :: k in r <==> k in store && !Expired(store[k], now)
    ensures forall k :: k in r ==> r[k] == store[k]
    ensures WellKeyed(store) ==> WellKeyed(r)
  {
    map k | k in store && !Expired(store[k], now) :: store[k]
  }

  // ---------------------------------------------------------------------------
  // Properties relating the operations

  /** Saving then reading at the same instant returns the saved session,
      stamped with that instant, and evicts nothing. */
  lemma SaveThenGet(store: Store, id: string, s: Session, now: int)
    ensures Get(Save(store, id, s, now), id, now) == Lookup(Save(store, id, s, now), Some(Entry(s, now)))
  {
  }

  /** The eviction boundary is strict: an entry exactly two hours old is still
      returned, one a millisecond older is evicted. */
  lemma TwoHourBoundary(store: Store, id: string, now: int)
    requires id in store
    ensures now - store[id].lastUpdated == InactivityWindowMs ==> Get(store, id, now).found == Some(store[id])
    ensures now - store[id].lastUpdated == InactivityWindowMs + 1 ==> Get(store, id, now).found == None
  {
  }

  /** A read that evicts leaves nothing behind: reading again also finds nothing. */
  lemma EvictionIsFinal(store: Store, id: string, now: int, later: int)
    requires Get(store, id, now).found.None?
    ensures Get(Get(store, id, now).store, id, later) == Lookup(Get(store, id, now).store, None)
  {
  }

  /** The hourly sweep and eviction-on-read agree: after a sweep, reading any
      id finds what reading it before the sweep would have found, and the
      sweep leaves nothing for a read to evict. */
  lemma SweepAgreesWithRead(store: Store, id: string, now: int)
    ensures Get(CleanOldSessions(store, now), id, now).found == Get(store, id, now).found
    ensures Get(CleanOldSessions(store, now), id, now).store == CleanOldSessions(store, now)
  {
  }

  /** Sweeping twice at the same instant removes nothing more. */
  lemma SweepIdempotent(store: Store, now: int)
    ensures CleanOldSessions(CleanOldSessions(store, now), now) == CleanOldSessions(store, now)
  {
  }

  /** `updateConversation` does not check expiry, so appending to an expired
      entry revives it: the next read returns it. */
  lemma UpdateRevivesExpiredEntry(store: Store, id: string, msg: Message, now: int)
    requires id in store && Expired(store[id], now)
    ensures Get(UpdateConversation(store, id, msg, now), id, now).found.Some?
  {
  }

  // ---------------------------------------------------------------------------
  // The cap is history independent

  /** Appending `msgs` one `updateConversation` at a time. */
  function AppendEach(c: seq<Message>, msgs: seq<Message>): seq<Message>
    decreases |msgs|
  {
    if msgs == [] then c else AppendEach(Cap(c + [msgs[0]]), msgs[1..])
  }

  /** Capping an already capped prefix and then the whole gives what capping
      the whole once gives. */
  lemma CapAbsorbs(z: seq<Message>, w: seq<Message>)
    ensures Cap(Cap(z) + w) == Cap(z + w)
  {
    if |z| <= ConversationCap {
      assert Cap(z) == z;
    } else if |w| == 0 {
      assert Cap(z) + w == Cap(z) && z + w == z;
    } else {
      CapAbsorbsLong(z, w);
    }
  }

  lemma CapAbsorbsLong(z: seq<Message>, w: seq<Message>)
    requires |z| > ConversationCap && |w| > 0
    ensures Cap(Cap(z) + w) == Cap(z + w)
  {
    var n := ConversationCap - 1;
    var cz := Cap(z);
    CapLong(z);
    assert cz[|cz| - n..] == z[|z| - n..];
    SameSuffix(cz, z, w, n);
    var x, y := cz + w, z + w;
    CapLong(x);
    CapLong(y);
    assert x[0] == y[0];
  }

  lemma CapLong(c: seq<Message>)
    requires |c| > ConversationCap
    ensures Cap(c) == [c[0]] + c[|c| - (ConversationCap - 1)..]
  {
  }

  /** Two sequences that end alike still end alike once the same messages
      are appended to both. */
  lemma SameSuffix(x: seq<Message>, y: seq<Message>, w: seq<Message>, n: nat)
    requires n <= |x| && n <= |y| && x[|x| - n..] == y[|y| - n..]
    ensures (x + w)[|x + w| - n..] == (y + w)[|y + w| - n..]
  {
    var a, b := x + w, y + w;
    var sa, sb := a[|a| - n..], b[|b| - n..];
    forall i | 0 <= i < n
      ensures sa[i] == sb[i]
    {
      if i < n - |w| {
        assert sa[i] == x[|x| - n..][i + |w|];
        assert sb[i] == y[|y| - n..][i + |w|];
      }
    }
  }

  /** Two appends in a row leave the cap of the conversation extended by
      both messages, restamped. */
  lemma UpdateTwice(store: Store, id: string, m1: Message, m2: Message, now: int)
    requires id in store
    ensures var r := UpdateConversation(UpdateConversation(store, id, m1, now), id, m2, now);
      && r[id].lastUpdated == now
      && r[id].session.conversation == Cap(store[id].session.conversation + [m1, m2])
  {
    var c := store[id].session.conversation;
    CapAbsorbs(c + [m1], [m2]);
    assert c + [m1] + [m2] == c + [m1, m2];
  }

  lemma SplitFirst(c: seq<Message>, msgs: seq<Message>)
    requires msgs != []
    ensures c + [msgs[0]] + msgs[1..] == c + msgs
  {
    assert [msgs[0]] + msgs[1..] == msgs;
  }

  /** However many messages arrive, the stored conversation is the cap of its
      whole history: the first entry ever appended followed by the latest 49
      once more than 50 have been appended, and everything otherwise. */
  lemma {:induction false} AppendEachIsCapOfHistory(c: seq<Message>, msgs: seq<Message>)
    requires |c| <= ConversationCap
    ensures AppendEach(c, msgs) == Cap(c + msgs)
    decreases |msgs|
  {
    if msgs != [] {
      var z, rest := c + [msgs[0]], msgs[1..];
      assert AppendEach(c, msgs) == AppendEach(Cap(z), rest);
      AppendEachIsCapOfHistory(Cap(z), rest);
      CapAbsorbs(z, rest);
      SplitFirst(c, msgs);
    }
  }

  /** Consequently a conversation that starts within the cap never exceeds it,
      keeps its first entry, and ends with the latest appended message. */
  lemma AppendEachBounded(c: seq<Message>, msgs: seq<Message>)
    requires |c| <= ConversationCap
    ensures |AppendEach(c, msgs)| == if |c| + |msgs| > ConversationCap then ConversationCap else |c| + |msgs|
    ensures c + msgs != [] ==> AppendEach(c, msgs)[0] == (c + msgs)[0]
    ensures msgs != [] ==> AppendEach(c, msgs)[|AppendEach(c, msgs)| - 1] == msgs[|msgs| - 1]
  {
    AppendEachIsCapOfHistory(c, msgs);
    var h := c + msgs;
    if msgs != [] {
      assert h[|h| - 1] == msgs[|msgs| - 1];
    }
  }
}
