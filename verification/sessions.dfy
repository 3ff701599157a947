/** The in-memory session store of `ChatService`: `session_store` (id to
    history), `session_created` (id to creation time) and, because Python
    dicts iterate in insertion order, the order in which ids were added. */
module Sessions {
  import opened Conversation

  type SessionId = string

  /** The creation time, an ISO text produced by the clock outside the model. */
  type Timestamp = string

  datatype Store = Store(
    histories: map<SessionId, ChatHistory>,
    created: map<SessionId, Timestamp>,
    order: seq<SessionId>)

  const EmptyStore := Store(map[], map[], [])

  predicate Distinct(xs: seq<SessionId>)
  {
    forall i, j :: 0 <= i < j < |xs| ==> xs[i] != xs[j]
  }

  /** The store's invariant: both dicts have the same keys, and `order` lists
      each of those keys exactly once. */
  predicate Valid(s: Store)
  {
    && s.histories.Keys == s.created.Keys
    && Distinct(s.order)
    && (forall id :: id in s.order ==> id in s.histories)
    && (forall id :: id in s.histories ==> id in s.order)
  }

  /** Nothing about session `id` differs between `s` and `t`. */
  predicate SameSession(s: Store, t: Store, id: SessionId)
  {
    && (id in s.histories <==> id in t.histories)
    && (id in s.histories ==> s.histories[id] == t.histories[id])
    && (id in s.created <==> id in t.created)
    && (id in s.created ==> s.created[id] == t.created[id])
  }

  /** The stored messages of `id`, empty when there is no such session. */
  function MessagesOf(s: Store, id: SessionId): (messages: seq<Message>)
  {
    if id in s.histories then s.histories[id].messages else []
  }

  lemma EmptyStoreValid()
    ensures Valid(EmptyStore)
  {
  }

  datatype Lookup = Lookup(store: Store, history: ChatHistory)

  /** `get_session_history`: the existing history of `id`, or a new empty one
      recorded together with the creation time `now`. */
  function GetSessionHistory(s: Store, id: SessionId, now: Timestamp): (r: Lookup)
    ensures id in r.store.histories && r.history == r.store.histories[id]
    ensures id in s.histories ==> r.store == s
    ensures id !in s.histories ==>
              && r.history.messages == []
              && r.store.created == s.created[id := now]
              && r.store.order == s.order + [id]
    ensures r.history.messages == MessagesOf(s, id)
    ensures |r.store.histories| == if id in s.histories then |s.histories| else |s.histories| + 1
    ensures forall other :: other != id ==> SameSession(s, r.store, other)
    ensures Valid(s) ==> Valid(r.store)
  {
    if id !in s.histories then
      Lookup(Store(s.histories[id := EmptyHistory], s.created[id := now], s.order + [id]), EmptyHistory)
    else
      Lookup(s, s.histories[id])
  }

  /** Writing back the history object of an existing session, which the
      source mutates in place. */
  function ReplaceHistory(s: Store, id: SessionId, h: ChatHistory): (r: Store)
    requires id in s.histories
    ensures id in r.histories && r.histories[id] == h
    ensures r.created == s.created && r.order == s.order
    ensures forall other :: other != id ==> SameSession(s, r, other)
    ensures Valid(s) ==> Valid(r)
  {
    s.(histories := s.histories[id := h])
  }

  /** `clear_history`: empties the messages of an existing session, which
      keeps its id and its creation time; an unknown id changes nothing. */
  function ClearHistory(s: Store, id: SessionId): (r: Store)
    ensures id in s.histories ==>
              && id in r.histories && r.histories[id].messages == []
              && r.created == s.created && r.order == s.order
    ensures id !in s.histories ==> r == s
    ensures forall other :: other != id ==> SameSession(s, r, other)
    ensures Valid(s) ==> Valid(r)
  {
    if id in s.histories then ReplaceHistory(s, id, Clear(s.histories[id])) else s
  }

  /** `r` is `xs` with some elements left out: the elements of `r` occur in
      `xs` in the same order. */
  predicate Subsequence(r: seq<SessionId>, xs: seq<SessionId>)
    decreases |xs|
  {
    if |r| == 0 then true
    else if |xs| == 0 then false
    else if r[0] == xs[0] then Subsequence(r[1..], xs[1..])
    else Subsequence(r, xs[1..])
  }

  /** `a` occurs in `xs` somewhere before `b`. */
  predicate Before(xs: seq<SessionId>, a: SessionId, b: SessionId)
  {
    exists i, j :: 0 <= i < j < |xs| && xs[i] == a && xs[j] == b
  }

  lemma BeforeInTail(xs: seq<SessionId>, a: SessionId, b: SessionId)
    requires |xs| > 0 && Before(xs[1..], a, b)
    ensures Before(xs, a, b)
  {
    var i, j :| 0 <= i < j < |xs[1..]| && xs[1..][i] == a && xs[1..][j] == b;
    assert xs[i + 1] == a && xs[j + 1] == b;
  }

  lemma BeforeFromHead(xs: seq<SessionId>, b: SessionId)
    requires |xs| > 0 && b in xs[1..]
    ensures Before(xs, xs[0], b)
  {
    var j :| 0 <= j < |xs[1..]| && xs[1..][j] == b;
    assert xs[j + 1] == b;
  }

  /** Every entry of a subsequence occurs in the original. */
  lemma {:induction false} SubsequenceMembers(r: seq<SessionId>, xs: seq<SessionId>)
    requires Subsequence(r, xs)
    ensures forall j :: 0 <= j < |r| ==> r[j] in xs
    decreases |xs|
  {
    if |r| > 0 && |xs| > 0 {
      if r[0] == xs[0] {
        SubsequenceMembers(r[1..], xs[1..]);
        assert forall j :: 1 <= j < |r| ==> r[j] == r[1..][j - 1];
      } else {
        SubsequenceMembers(r, xs[1..]);
      }
    }
  }

  /** Any two entries of a subsequence appear in the same order in the
      original. */
  lemma {:induction false} SubsequenceKeepsOrder(r: seq<SessionId>, xs: seq<SessionId>)
    requires Subsequence(r, xs)
    ensures forall i, j :: 0 <= i < j < |r| ==> Before(xs, r[i], r[j])
    decreases |xs|
  {
    if |r| > 0 && |xs| > 0 {
      if r[0] == xs[0] {
        SubsequenceKeepsOrder(r[1..], xs[1..]);
        SubsequenceMembers(r[1..], xs[1..]);
        forall i, j | 0 <= i < j < |r| ensures Before(xs, r[i], r[j]) {
          assert r[j] == r[1..][j - 1];
          if i == 0 {
            BeforeFromHead(xs, r[j]);
          } else {
            assert r[i] == r[1..][i - 1];
            BeforeInTail(xs, r[i], r[j]);
          }
        }
      } else {
        SubsequenceKeepsOrder(r, xs[1..]);
        forall i, j | 0 <= i < j < |r| ensures Before(xs, r[i], r[j]) {
          BeforeInTail(xs, r[i], r[j]);
        }
      }
    }
  }

  /** `xs` without `x`, in the same order. */
  function RemoveId(xs: seq<SessionId>, x: SessionId): (r: seq<SessionId>)
    ensures forall y :: y in r <==> y in xs && y != x
    ensures x !in xs ==> r == xs
    ensures Subsequence(r, xs)
    ensures Distinct(xs) ==> Distinct(r)
    ensures |r| <= |xs|
  {
    if |xs| == 0 then []
    else if xs[0] == x then
      RemoveId(xs[1..], x)
    else
      var rest := RemoveId(xs[1..], x);
      assert Distinct(xs) ==> xs[0] !in xs[1..];
      var r := [xs[0]] + rest;
      assert r[1..] == rest;
      r
  }

  /** `delete_session`: removes the id from both dicts and from the iteration
      order, where the other ids keep their relative order; an unknown id
      changes nothing. */
  function DeleteSession(s: Store, id: SessionId): (r: Store)
    ensures id !in r.histories
    ensures id in s.histories ==> id !in r.created
    ensures id !in s.histories ==> r == s
    ensures Valid(s) ==> r.order == RemoveId(s.order, id)
    ensures forall other :: other != id ==> SameSession(s, r, other)
    ensures Valid(s) ==> Valid(r)
    ensures |r.histories| == if id in s.histories then |s.histories| - 1 else |s.histories|
  {
    if id in s.histories then
      Store(s.histories - {id},
            if id in s.created then s.created - {id} else s.created,
            RemoveId(s.order, id))
    else
      s
  }

  /** `get_message_count`: 0 for an unknown id. */
  function MessageCount(s: Store, id: SessionId): (n: nat)
    ensures id !in s.histories ==> n == 0
    ensures n == |MessagesOf(s, id)|
  {
    if id !in s.histories then 0 else Length(s.histories[id])
  }

  /** `session_exists`: under the invariant, being in either dict is the same. */
  function SessionExists(s: Store, id: SessionId): (b: bool)
    ensures Valid(s) ==> (b <==> id in s.created)
    ensures !b ==> MessageCount(s, id) == 0
  {
    id in s.histories
  }

  /** A distinct sequence has as many elements as the set of its elements. */
  lemma {:induction false} DistinctCardinality(xs: seq<SessionId>)
    requires Distinct(xs)
    ensures |set i | 0 <= i < |xs| :: xs[i]| == |xs|
  {
    if |xs| > 0 {
      var rest := xs[..|xs| - 1];
      assert Distinct(rest);
      DistinctCardinality(rest);
      var restSet := set i | 0 <= i < |rest| :: rest[i];
      var allSet := set i | 0 <= i < |xs| :: xs[i];
      assert allSet == restSet + {xs[|xs| - 1]};
      assert xs[|xs| - 1] !in restSet;
    }
  }

  /** Under the invariant, the iteration order lists every session once. */
  lemma OrderCoversSessions(s: Store)
    ensures Valid(s) ==> (set i | 0 <= i < |s.order| :: s.order[i]) == s.histories.Keys
    ensures Valid(s) ==> |s.order| == |s.histories|
  {
    if !Valid(s) { return; }
    var listed := set i | 0 <= i < |s.order| :: s.order[i];
    assert listed == s.histories.Keys by {
      forall id | id in s.histories ensures id in listed {
        var i :| 0 <= i < |s.order| && s.order[i] == id;
      }
    }
    DistinctCardinality(s.order);
  }

  /** `get_active_sessions_count`. */
  function ActiveSessionsCount(s: Store): (n: nat)
    ensures Valid(s) ==> n == |s.order|
    ensures n == |s.histories.Keys|
  {
    OrderCoversSessions(s); |s.histories|
  }

  datatype SessionSummary = SessionSummary(sessionId: SessionId, messageCount: nat)

  /** `get_all_sessions`: one summary per stored id, in insertion order. */
  function AllSessions(s: Store): (r: seq<SessionSummary>)
    ensures |r| == |s.order|
    ensures forall i :: 0 <= i < |r| ==>
              r[i].sessionId == s.order[i] && r[i].messageCount == MessageCount(s, s.order[i])
    ensures Valid(s) ==> |r| == ActiveSessionsCount(s)
    ensures Valid(s) ==> (set i | 0 <= i < |r| :: r[i].sessionId) == s.histories.Keys
  {
    OrderCoversSessions(s); Summaries(s, s.order)
  }

  function Summaries(s: Store, ids: seq<SessionId>): (r: seq<SessionSummary>)
    ensures |r| == |ids|
    ensures forall i :: 0 <= i < |r| ==> r[i] == SessionSummary(ids[i], MessageCount(s, ids[i]))
  {
    seq(|ids|, i requires 0 <= i < |ids| => SessionSummary(ids[i], MessageCount(s, ids[i])))
  }

  /** `get_session_created_time`, with the clock reading `now` standing in for
      the default of `datetime.now()`. */
  function SessionCreatedTime(s: Store, id: SessionId, now: Timestamp): (t: Timestamp)
    ensures id in s.created ==> t == s.created[id]
    ensures id !in s.created ==> t == now
  {
    if id in s.created then s.created[id] else now
  }

  /** What `/sessions/{id}/info` reports for a session that was unseen:
      after `get_session_history` it exists, has no messages, and was created
      at `now`, whatever clock reading a later query supplies. */
  lemma GetCreatesSession(s: Store, id: SessionId, now: Timestamp, later: Timestamp)
    requires id !in s.histories
    ensures var t := GetSessionHistory(s, id, now).store;
      && SessionExists(t, id)
      && MessageCount(t, id) == 0
      && SessionCreatedTime(t, id, later) == now
  {
  }

  /** `clear_history` of an existing session: it still exists, has no
      messages, and reports the same creation time as before. */
  lemma ClearKeepsSession(s: Store, id: SessionId, later: Timestamp)
    requires id in s.histories
    ensures var t := ClearHistory(s, id);
      && SessionExists(t, id)
      && MessageCount(t, id) == 0
      && SessionCreatedTime(t, id, later) == SessionCreatedTime(s, id, later)
  {
  }

  /** `delete_session`: afterwards the session is gone, has no messages, its
      creation time falls back to the clock reading, and a stored id leaves
      one fewer active session. */
  lemma DeleteForgetsSession(s: Store, id: SessionId, later: Timestamp)
    requires Valid(s)
    ensures var t := DeleteSession(s, id);
      && !SessionExists(t, id)
      && MessageCount(t, id) == 0
      && SessionCreatedTime(t, id, later) == later
      && ActiveSessionsCount(t) == (if SessionExists(s, id) then ActiveSessionsCount(s) - 1 else ActiveSessionsCount(s))
  {
    assert id !in DeleteSession(s, id).created by {
      if id !in s.histories { assert id !in s.created; }
    }
  }

  /** `delete_session` keeps the other sessions listed in their insertion
      order. */
  lemma DeleteKeepsListingOrder(s: Store, id: SessionId)
    requires Valid(s)
    ensures var t := DeleteSession(s, id).order;
      forall i, j :: 0 <= i < j < |t| ==> Before(s.order, t[i], t[j])
  {
    var t := DeleteSession(s, id).order;
    assert t == RemoveId(s.order, id);
    SubsequenceKeepsOrder(t, s.order);
  }
}
