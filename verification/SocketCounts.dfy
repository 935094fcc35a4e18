/** The per-tab part of apps/server/src/websocket-auth-index.ts: how many sockets each tab has, and the
    generations that cleanup reads. */
module SocketCounts {
  import opened Collections
  import opened GenerationCaches

  /** Tabs without sockets have no entry in `counts`. */
  datatype TabSockets = TabSockets(counts: map<Id, nat>, cache: Cache)

  const NO_SOCKETS := TabSockets(map[], EMPTY)

  function Count(s: TabSockets, tab: Id): nat {
    if tab in s.counts then s.counts[tab] else 0
  }

  function Registered(s: TabSockets, tab: Id): TabSockets {
    TabSockets(s.counts[tab := Count(s, tab) + 1], Advance(PerKey, s.cache, tab))
  }

  /** One less, deleting the entry at zero. */
  function Unregistered(s: TabSockets, tab: Id): TabSockets {
    TabSockets(
      if tab in s.counts && s.counts[tab] > 1 then s.counts[tab := s.counts[tab] - 1] else s.counts - {tab},
      Advance(PerKey, s.cache, tab))
  }

  ghost predicate ValidCounts(s: TabSockets) {
    && Valid(PerKey, s.cache)
    && forall tab :: tab in s.counts ==> s.counts[tab] > 0
  }

  lemma RegisteredMoves(s: TabSockets, tab: Id)
    requires ValidCounts(s)
    ensures ValidCounts(Registered(s, tab)) && Count(Registered(s, tab), tab) == Count(s, tab) + 1
    ensures forall other :: other != tab ==> Count(Registered(s, tab), other) == Count(s, other)
    ensures Reading(Registered(s, tab).cache, tab) > Reading(s.cache, tab)
  {
    AdvanceSound(PerKey, s.cache, tab);
  }

  lemma UnregisteredMoves(s: TabSockets, tab: Id)
    requires ValidCounts(s)
    ensures ValidCounts(Unregistered(s, tab))
    ensures Count(s, tab) > 0 ==> Count(Unregistered(s, tab), tab) == Count(s, tab) - 1
    ensures forall other :: other != tab ==> Count(Unregistered(s, tab), other) == Count(s, other)
    ensures Reading(Unregistered(s, tab).cache, tab) > Reading(s.cache, tab)
  {
    AdvanceSound(PerKey, s.cache, tab);
  }

  /** Each registration and each removal moves the count of its own tab by one and no other tab's, and is visible
      as a strictly larger generation of that tab. */
  lemma CountsMove(s: TabSockets, tab: Id)
    requires ValidCounts(s)
    ensures ValidCounts(Registered(s, tab)) && ValidCounts(Unregistered(s, tab))
    ensures Count(Registered(s, tab), tab) == Count(s, tab) + 1
    ensures Count(s, tab) > 0 ==> Count(Unregistered(s, tab), tab) == Count(s, tab) - 1
    ensures forall other :: other != tab ==>
              Count(Registered(s, tab), other) == Count(s, other) == Count(Unregistered(s, tab), other)
    ensures Reading(Registered(s, tab).cache, tab) > Reading(s.cache, tab)
    ensures Reading(Unregistered(s, tab).cache, tab) > Reading(s.cache, tab)
  {
    RegisteredMoves(s, tab);
    UnregisteredMoves(s, tab);
  }

  /** A removal undoes a registration. */
  lemma RemovalUndoes(s: TabSockets, tab: Id)
    requires ValidCounts(s)
    ensures Unregistered(Registered(s, tab), tab).counts == s.counts
  {
    var up := Count(s, tab) + 1;
    assert s.counts[tab := up] - {tab} == s.counts - {tab};
    if tab in s.counts {
      assert s.counts[tab := up][tab := up - 1] == s.counts;
    } else {
      assert s.counts - {tab} == s.counts;
    }
  }
}
