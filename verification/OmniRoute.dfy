/** The capability router over registered agent cards. */
module OmniRoute {
  import opened Base
  import opened Text

  /** `priority` is an `i32` in the program; only its order matters here. */
  datatype AgentCard = AgentCard(
    id: string, name: string, capabilities: seq<string>, endpoint: string, priority: int)

  // ----- covering and surplus --------------------------------------------------------------

  /** Every required capability is offered. */
  predicate Covers(capabilities: seq<string>, required: seq<string>) {
    forall k :: 0 <= k < |required| ==> required[k] in capabilities
  }

  const WORD: nat := 0x1_0000_0000_0000_0000

  /** `capabilities.len() - required.len()` on 64-bit words, wrapping. */
  function Surplus(card: AgentCard, required: seq<string>): int {
    var d := |card.capabilities| - |required|;
    if d >= 0 then d else d + WORD
  }

  /** The subtraction of lengths never underflows on a covering card, whatever the card, exactly for
      requirements without duplicates. */
  lemma SurplusIsSafeIff(required: seq<string>)
    ensures (forall caps :: Covers(caps, required) ==> |required| <= |caps|) <==> NoDuplicates(required)
  {
    ElementsCount(required);
    if NoDuplicates(required) {
      forall caps | Covers(caps, required) ensures |required| <= |caps| {
        ElementsCount(caps);
        SubsetSize(ElementsOf(required), ElementsOf(caps));
      }
    } else {
      var once := WithoutRepeats(required);
      assert forall k :: 0 <= k < |required| ==> required[k] in ElementsOf(once);
      assert Covers(once, required) && |once| < |required|;
    }
  }

  // ----- the order -------------------------------------------------------------------------

  /** Fewest surplus capabilities, then highest priority, then smallest id. */
  predicate Better(a: AgentCard, b: AgentCard, required: seq<string>) {
    || Surplus(a, required) < Surplus(b, required)
    || (Surplus(a, required) == Surplus(b, required)
        && (a.priority > b.priority || (a.priority == b.priority && Precedes(a.id, b.id))))
  }

  lemma BetterIsTotal(a: AgentCard, b: AgentCard, required: seq<string>)
    requires a.id != b.id
    ensures Better(a, b, required) <==> !Better(b, a, required)
  {
    PrecedesIsTotal(a.id, b.id);
  }

  lemma BetterIsTransitive(a: AgentCard, b: AgentCard, c: AgentCard, required: seq<string>)
    requires Better(a, b, required) && Better(b, c, required)
    ensures Better(a, c, required)
  {
    if Precedes(a.id, b.id) && Precedes(b.id, c.id) {
      PrecedesIsTransitive(a.id, b.id, c.id);
    }
  }

  // ----- the registered cards --------------------------------------------------------------

  predicate KeyedById(cards: map<string, AgentCard>) {
    forall id :: id in cards ==> cards[id].id == id
  }

  predicate Candidate(cards: map<string, AgentCard>, id: string, required: seq<string>) {
    id in cards && Covers(cards[id].capabilities, required)
  }

  /** The card routed to: a candidate that beats every other one, or none without candidates. */
  ghost predicate IsRoute(cards: map<string, AgentCard>, required: seq<string>, r: Option<AgentCard>) {
    match r
    case None => forall id :: !Candidate(cards, id, required)
    case Some(best) =>
      && Candidate(cards, best.id, required) && cards[best.id] == best
      && forall id :: Candidate(cards, id, required) && id != best.id ==> Better(best, cards[id], required)
  }

  /** There is at most one route. */
  lemma RouteIsUnique(cards: map<string, AgentCard>, required: seq<string>, r: Option<AgentCard>, q: Option<AgentCard>)
    requires KeyedById(cards) && IsRoute(cards, required, r) && IsRoute(cards, required, q)
    ensures r == q
  {
    if r.Some? && q.Some? && r != q {
      BetterIsTotal(r.value, q.value, required);
    }
  }

  /** Routing picks a card with as few capabilities as any candidate has, provided that the candidates
      do not lie on both sides of the number required, and only then. */
  lemma FewestCapabilitiesIff(cards: map<string, AgentCard>, required: seq<string>, best: AgentCard)
    requires KeyedById(cards) && IsRoute(cards, required, Some(best))
    requires |required| < WORD && forall id :: id in cards ==> |cards[id].capabilities| < WORD
    ensures (forall id :: Candidate(cards, id, required) ==> |best.capabilities| <= |cards[id].capabilities|)
            <==> SameSide(cards, required)
  {
    if SameSide(cards, required) {
      forall id | Candidate(cards, id, required) ensures |best.capabilities| <= |cards[id].capabilities| {
        assert Candidate(cards, best.id, required);
      }
    } else {
      var i, j :| Candidate(cards, i, required) && Candidate(cards, j, required)
                  && |cards[i].capabilities| < |required| <= |cards[j].capabilities|;
      assert Surplus(cards[j], required) < Surplus(cards[i], required);
    }
  }

  ghost predicate SameSide(cards: map<string, AgentCard>, required: seq<string>) {
    forall i, j :: Candidate(cards, i, required) && Candidate(cards, j, required) ==>
      (|cards[i].capabilities| < |required| <==> |cards[j].capabilities| < |required|)
  }

  /** Without duplicate requirements the most specialised candidate wins; among those the highest
      priority, and among those the id that comes first. */
  lemma MostSpecializedWins(cards: map<string, AgentCard>, required: seq<string>, best: AgentCard, id: string)
    requires KeyedById(cards) && IsRoute(cards, required, Some(best)) && NoDuplicates(required)
    requires Candidate(cards, id, required)
    ensures |required| <= |best.capabilities| <= |cards[id].capabilities|
    ensures |best.capabilities| == |cards[id].capabilities| ==> best.priority >= cards[id].priority
    ensures |best.capabilities| == |cards[id].capabilities| && best.priority == cards[id].priority ==>
              id == best.id || ComesFirst(best.id, id)
  {
    SurplusIsSafeIff(required);
    PrecedesMeaning(best.id, id);
  }

  /** With a duplicate requirement the larger of two covering cards can win. */
  lemma DuplicateRequirementMisroutes()
    ensures var small := AgentCard("a", "a", ["x"], "", 0);
            var large := AgentCard("b", "b", ["x", "y"], "", 0);
            IsRoute(map["a" := small, "b" := large], ["x", "x"], Some(large))
  {
  }

  // ----- the router ------------------------------------------------------------------------

  class OmniRoute {
    var cards: map<string, AgentCard>

    constructor ()
      ensures cards == map[]
    {
      cards := map[];
    }

    /** Registers or refreshes a card. */
    method Register(card: AgentCard)
      requires KeyedById(cards)
      modifies this
      ensures KeyedById(cards)
      ensures cards == old(cards)[card.id := card]
    {
      cards := cards[card.id := card];
    }

    method Route(required: seq<string>) returns (r: Option<AgentCard>)
      requires KeyedById(cards)
      ensures IsRoute(cards, required, r)
    {
      r := None;
      var todo := cards.Keys;
      while todo != {}
        invariant todo <= cards.Keys
        invariant r.Some? ==> r.value.id in cards.Keys - todo
        invariant IsRoute(Restricted(cards, cards.Keys - todo), required, r)
        decreases |todo|
      {
        var id :| id in todo;
        ghost var before := Restricted(cards, cards.Keys - todo);
        todo := todo - {id};
        var card := cards[id];
        assert Restricted(cards, cards.Keys - todo) == before[id := card];
        AddCandidate(before, required, r, card);
        if Covers(card.capabilities, required) && (r.None? || Better(card, r.value, required)) {
          r := Some(card);
        }
      }
      assert Restricted(cards, cards.Keys - todo) == cards;
    }
  }

  ghost function Restricted(cards: map<string, AgentCard>, ids: set<string>): map<string, AgentCard> {
    map id | id in cards && id in ids :: cards[id]
  }

  /** One more card either becomes the route or leaves it as it is. */
  lemma AddCandidate(cards: map<string, AgentCard>, required: seq<string>, r: Option<AgentCard>, card: AgentCard)
    requires KeyedById(cards) && card.id !in cards && IsRoute(cards, required, r)
    ensures IsRoute(cards[card.id := card], required,
                    if Covers(card.capabilities, required) && (r.None? || Better(card, r.value, required))
                    then Some(card) else r)
  {
    var more := cards[card.id := card];
    assert forall id :: id != card.id ==> (Candidate(more, id, required) <==> Candidate(cards, id, required));
    if Covers(card.capabilities, required) && r.Some? {
      BetterIsTotal(card, r.value, required);
      if Better(card, r.value, required) {
        forall id | Candidate(more, id, required) && id != card.id ensures Better(card, more[id], required) {
          if id != r.value.id {
            BetterIsTransitive(card, r.value, cards[id], required);
          }
        }
      }
    }
  }

  // ----- registration histories ------------------------------------------------------------

  /** The cards after a sequence of registrations. */
  function Registered(history: seq<AgentCard>): map<string, AgentCard> {
    if history == [] then map[]
    else
      var last := history[|history| - 1];
      Registered(history[..|history| - 1])[last.id := last]
  }

  /** The latest card registered under an id. */
  function Latest(history: seq<AgentCard>, id: string): Option<AgentCard> {
    if history == [] then None
    else
      var last := history[|history| - 1];
      if last.id == id then Some(last) else Latest(history[..|history| - 1], id)
  }

  lemma {:induction false} RegisteredIsLatest(history: seq<AgentCard>, id: string)
    ensures Latest(history, id) == if id in Registered(history) then Some(Registered(history)[id]) else None
    ensures KeyedById(Registered(history))
  {
    if history != [] {
      RegisteredIsLatest(history[..|history| - 1], id);
    }
  }

  /** Routing depends on nothing but the latest card of each id: histories that agree on those route
      every request alike. */
  lemma RouteDependsOnLatest(
    h: seq<AgentCard>, g: seq<AgentCard>, required: seq<string>, r: Option<AgentCard>, q: Option<AgentCard>)
    requires forall id :: Latest(h, id) == Latest(g, id)
    requires IsRoute(Registered(h), required, r) && IsRoute(Registered(g), required, q)
    ensures Registered(h) == Registered(g) && r == q
  {
    forall id
      ensures id in Registered(h) <==> id in Registered(g)
      ensures id in Registered(h) ==> Registered(h)[id] == Registered(g)[id]
      ensures KeyedById(Registered(h))
    {
      RegisteredIsLatest(h, id);
      RegisteredIsLatest(g, id);
    }
    assert Registered(h) == Registered(g);
    RegisteredIsLatest(h, "");
    RouteIsUnique(Registered(h), required, r, q);
  }

  /** Two cards with different ids may be registered in either order. */
  lemma OrderIsIrrelevant(h: seq<AgentCard>, a: AgentCard, b: AgentCard)
    requires a.id != b.id
    ensures Registered(h + [a] + [b]) == Registered(h + [b] + [a])
  {
    assert (h + [a] + [b])[..|h| + 1] == h + [a] && (h + [a])[..|h|] == h;
    assert (h + [b] + [a])[..|h| + 1] == h + [b] && (h + [b])[..|h|] == h;
  }
}
