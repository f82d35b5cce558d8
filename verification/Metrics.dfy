/**
Metrics: counters kept up to date event by event agree with recounting the
event log, and the escrowed-value gauge of the local table agrees with the chain.
*/
module Metrics {
  import Escrow
  import opened LocalDb
  import opened Protocol
  import opened ProtocolInv
  import opened ProtocolTheorems
  import opened Sums
  import opened Wrappers

  const COUNTERS: map<string, string> := map[
    "proposed" := "intent.proposed",
    "refused" := "intent.refused",
    "injection_blocked" := "injection.blocked",
    "held" := "intent.held",
    "released" := "intent.released",
    "reverted" := "intent.reverted",
    "refunded" := "intent.refunded"]

  function CountOf(events: seq<string>, name: string): nat {
    if events == [] then 0
    else CountOf(events[..|events| - 1], name) + if events[|events| - 1] == name then 1 else 0
  }

  /** The snapshot: how often each counter's event stands in the log. */
  function Recount(events: seq<string>): map<string, nat> {
    map counter | counter in COUNTERS :: CountOf(events, COUNTERS[counter])
  }

  function CounterFor(name: string): Option<string> {
    if name == "intent.proposed" then Some("proposed")
    else if name == "intent.refused" then Some("refused")
    else if name == "injection.blocked" then Some("injection_blocked")
    else if name == "intent.held" then Some("held")
    else if name == "intent.released" then Some("released")
    else if name == "intent.reverted" then Some("reverted")
    else if name == "intent.refunded" then Some("refunded")
    else None
  }

  /** Event names and counters are each other's inverse. */
  lemma CountersInvert(counter: string, name: string)
    ensures counter in COUNTERS && COUNTERS[counter] == name <==> CounterFor(name) == Some(counter)
  {
    assert |"intent.proposed"| == 15 && |"intent.refused"| == 14 && |"injection.blocked"| == 17 && |"intent.held"| == 11;
    assert |"intent.released"| == 15 && |"intent.reverted"| == 15 && |"intent.refunded"| == 15;
    assert "intent.proposed"[7] == 'p' && "intent.released"[9] == 'l' && "intent.reverted"[9] == 'v' && "intent.refunded"[9] == 'f';
  }

  /** Each counter counts its own event, and there are no others. */
  lemma CountersExactly(events: seq<string>)
    ensures var counts := Recount(events);
            && counts.Keys == {"proposed", "refused", "injection_blocked", "held", "released", "reverted", "refunded"}
            && counts["proposed"] == CountOf(events, "intent.proposed") && counts["refused"] == CountOf(events, "intent.refused")
            && counts["injection_blocked"] == CountOf(events, "injection.blocked") && counts["held"] == CountOf(events, "intent.held")
            && counts["released"] == CountOf(events, "intent.released") && counts["reverted"] == CountOf(events, "intent.reverted")
            && counts["refunded"] == CountOf(events, "intent.refunded")
  {
    CountersInvert("proposed", "intent.proposed");
    CountersInvert("refused", "intent.refused");
    CountersInvert("injection_blocked", "injection.blocked");
    CountersInvert("held", "intent.held");
    CountersInvert("released", "intent.released");
    CountersInvert("reverted", "intent.reverted");
    CountersInvert("refunded", "intent.refunded");
  }

  /** How often a name stands in the log. */
  lemma {:induction false} CountsExactly(events: seq<string>, name: string)
    ensures CountOf(events, name) == multiset(events)[name]
  {
    if events != [] {
      CountsExactly(events[..|events| - 1], name);
      assert events == events[..|events| - 1] + [events[|events| - 1]];
    }
  }

  class Counters {
    var counters: map<string, nat>
    ghost var seen: seq<string>

    ghost predicate Valid()
      reads this
    {
      counters == Recount(seen)
    }

    constructor ()
      ensures Valid() && seen == []
    {
      counters := map counter | counter in COUNTERS :: 0;
      seen := [];
    }

    /** One published event: the counter it feeds, if any, goes up by one. */
    method OnEvent(name: string)
      requires Valid()
      modifies this
      ensures Valid() && seen == old(seen) + [name]
    {
      hide CounterFor;
      var counter := CounterFor(name);
      ghost var before := seen;
      seen := seen + [name];
      assert seen[..|seen| - 1] == before;
      forall c | c in COUNTERS
        ensures CountOf(seen, COUNTERS[c]) == CountOf(before, COUNTERS[c]) + if counter == Some(c) then 1 else 0
      {
        CountersInvert(c, name);
      }
      if counter.Some? {
        CountersInvert(counter.value, name);
        counters := counters[counter.value := counters[counter.value] + 1];
      }
    }
  }

  // ---- The gauge ----

  function EscrowedWeight(): (RowId, Row) -> int {
    (r: RowId, row: Row) => if row.status == Escrowed then row.amount else 0
  }

  /** The sum of the locally escrowed amounts. */
  ghost function EscrowedValue(db: Db): int {
    Sum(db.rows, EscrowedWeight())
  }

  function ClaimedWeight(): (RowId, Row) -> int {
    (r: RowId, row: Row) => if row.status == Escrowed && row.chainId == None then row.amount else 0
  }

  ghost function LinkedIds(rows: map<RowId, Row>): set<nat> {
    set r | r in rows && rows[r].chainId.Some? :: rows[r].chainId.value
  }

  function FundedWeight(ids: set<nat>): (nat, Escrow.Intent) -> int {
    (id: nat, x: Escrow.Intent) => if id in ids && x.status == Escrow.Funded then x.amount else 0
  }

  /** What a linked row contributes if its escrow is still funded. */
  ghost function LinkedWeight(intents: map<nat, Escrow.Intent>): (RowId, Row) -> int {
    (r: RowId, row: Row) =>
      if row.chainId.Some? && row.chainId.value in intents && intents[row.chainId.value].status == Escrow.Funded
      then row.amount else 0
  }

  /** Every linked row says what the chain says. */
  ghost predicate Synced(w: World) {
    forall r :: r in w.db.rows && w.db.rows[r].chainId.Some? && w.db.rows[r].chainId.value in w.chain.intents ==>
      w.db.rows[r].status == FromChain(w.chain.intents[w.db.rows[r].chainId.value].status)
  }

  /** Rows bound one to one to intents of their own amount. */
  ghost predicate Bound(rows: map<RowId, Row>, intents: map<nat, Escrow.Intent>) {
    && (forall r :: r in rows && rows[r].chainId.Some? ==>
          rows[r].chainId.value in intents && intents[rows[r].chainId.value].amount == rows[r].amount)
    && (forall r, q :: r in rows && q in rows && rows[r].chainId.Some? && rows[r].chainId == rows[q].chainId ==> r == q)
  }

  lemma NoIdsNoSum(intents: map<nat, Escrow.Intent>)
    ensures Sum(intents, FundedWeight({})) == 0
    decreases |intents|
  {
    if intents != map[] {
      var id :| id in intents;
      SumRemove(intents, FundedWeight({}), id);
      NoIdsNoSum(intents - {id});
    }
  }

  /** One more linked id adds its own funded amount. */
  lemma OneMoreId(intents: map<nat, Escrow.Intent>, ids: set<nat>, id: nat)
    requires id in intents && id !in ids
    ensures Sum(intents, FundedWeight(ids + {id})) ==
      Sum(intents, FundedWeight(ids)) + if intents[id].status == Escrow.Funded then intents[id].amount else 0
  {
    SumRemove(intents, FundedWeight(ids + {id}), id);
    SumRemove(intents, FundedWeight(ids), id);
    SumCongruent(intents - {id}, FundedWeight(ids + {id}), intents - {id}, FundedWeight(ids));
  }

  lemma IdsWithout(rows: map<RowId, Row>, r: RowId)
    requires r in rows
    ensures LinkedIds(rows) == LinkedIds(rows - {r}) + (if rows[r].chainId.Some? then {rows[r].chainId.value} else {})
  {
    var rest := rows - {r};
    forall id | id in LinkedIds(rows)
      ensures id in LinkedIds(rest) || rows[r].chainId == Some(id)
    {
      var q :| q in rows && rows[q].chainId.Some? && rows[q].chainId.value == id;
      if q != r { assert q in rest && rest[q] == rows[q]; }
    }
    forall id | id in LinkedIds(rest) ensures id in LinkedIds(rows) {
      var q :| q in rest && rest[q].chainId.Some? && rest[q].chainId.value == id;
      assert q in rows && rows[q] == rest[q];
    }
    if rows[r].chainId.Some? { assert rows[r].chainId.value in LinkedIds(rows); }
  }

  /** Summing over linked rows is summing over the intents they are linked to. */
  lemma {:induction false} Reindex(rows: map<RowId, Row>, intents: map<nat, Escrow.Intent>)
    requires Bound(rows, intents)
    ensures Sum(rows, LinkedWeight(intents)) == Sum(intents, FundedWeight(LinkedIds(rows)))
    decreases |rows|
  {
    if rows == map[] {
      NoIdsNoSum(intents);
      assert LinkedIds(rows) == {};
    } else {
      var r :| r in rows;
      var rest := rows - {r};
      assert rest.Keys < rows.Keys;
      SumRemove(rows, LinkedWeight(intents), r);
      IdsWithout(rows, r);
      Reindex(rest, intents);
      if rows[r].chainId.Some? {
        NotLinkedElsewhere(rows, intents, r);
        OneMoreId(intents, LinkedIds(rest), rows[r].chainId.value);
      }
    }
  }

  lemma NotLinkedElsewhere(rows: map<RowId, Row>, intents: map<nat, Escrow.Intent>, r: RowId)
    requires Bound(rows, intents) && r in rows && rows[r].chainId.Some?
    ensures rows[r].chainId.value !in LinkedIds(rows - {r})
  {
  }

  lemma InvBinds(w: World)
    requires Inv(w)
    ensures Bound(w.db.rows, w.chain.intents)
  {
    forall r | r in w.db.rows && w.db.rows[r].chainId.Some?
      ensures w.db.rows[r].chainId.value in w.chain.intents
      ensures w.chain.intents[w.db.rows[r].chainId.value].amount == w.db.rows[r].amount
    {
      LinkedIsOnChain(w, r);
    }
    forall r, q | r in w.db.rows && q in w.db.rows && w.db.rows[r].chainId.Some? && w.db.rows[r].chainId == w.db.rows[q].chainId
      ensures r == q
    {
      LinksApart(w, r, q);
    }
  }

  lemma LinksApart(w: World, r: RowId, q: RowId)
    requires Inv(w) && r in w.db.rows && q in w.db.rows
    requires w.db.rows[r].chainId.Some? && w.db.rows[r].chainId == w.db.rows[q].chainId
    ensures r == q
  {
    assert RowOk(w, r) && RowOk(w, q);
    var x :| LinkedBy(w, r, w.db.rows[r].chainId.value, x);
    var y :| LinkedBy(w, q, w.db.rows[q].chainId.value, y);
  }

  /**
  In any state of the protocol in which the linked rows are synced, the gauge is
  the value still Funded on chain in intents linked locally, plus what is claimed
  but not linked yet.
  */
  lemma GaugeIsOnChainValue(w: World)
    requires Inv(w) && Synced(w)
    ensures EscrowedValue(w.db) == Sum(w.chain.intents, FundedWeight(LinkedIds(w.db.rows))) + Sum(w.db.rows, ClaimedWeight())
  {
    InvBinds(w);
    Reindex(w.db.rows, w.chain.intents);
    forall r | r in w.db.rows
      ensures EscrowedWeight()(r, w.db.rows[r]) == LinkedWeight(w.chain.intents)(r, w.db.rows[r]) + ClaimedWeight()(r, w.db.rows[r])
    {
    }
    SumPlus(w.db.rows, EscrowedWeight(), LinkedWeight(w.chain.intents), ClaimedWeight());
  }
}
