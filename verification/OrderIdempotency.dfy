/** How many orders an idempotency key can get, over every interleaving of CreateOrder calls
    (services/order-service/cmd/main.go, lines 66-74 and 301-325). */
module OrderIdempotency {
  import opened Counting
  import opened Orders

  lemma {:induction false} RunOn(reqs: Requests, run: seq<Action>, more: seq<Action>)
    ensures Run(reqs, run + more) == From(reqs, Run(reqs, run), more)
    decreases |more|
  {
    if more == [] {
      assert run + more == run;
    } else {
      var shorter := more[..|more| - 1];
      RunOn(reqs, run, shorter);
      assert (run + more)[..|run + more| - 1] == run + shorter;
    }
  }

  // ---- Owners ----

  ghost predicate Grows(s: Shared, t: Shared) {
    && (forall k | k in s.records :: k in t.records && t.records[k] == s.records[k])
    && s.orders.Keys <= t.orders.Keys
  }

  lemma StepGrows(reqs: Requests, s: System, a: Action)
    ensures Grows(s.shared, Step(reqs, s, a).shared)
  {
  }

  /** A key's recorded owner never changes, and a stored order stays stored. */
  lemma {:induction false} OwnerNeverChanges(reqs: Requests, s: System, more: seq<Action>)
    ensures Grows(s.shared, From(reqs, s, more).shared)
  {
    if more == [] {
    } else {
      var before := more[..|more| - 1];
      OwnerNeverChanges(reqs, s, before);
      StepGrows(reqs, From(reqs, s, before), more[|more| - 1]);
    }
  }

  /** A call that has not looked yet, or will look up the owner. */
  ghost predicate BeforeLookup(pc: Pc, owner: string) {
    pc == Start || pc == Looking(owner)
  }

  lemma StepFindsOwner(reqs: Requests, s: System, a: Action, id: string, owner: string)
    requires id in reqs && id in s.calls && reqs[id].key != "" && Owns(s.shared, reqs[id].key, owner)
    requires owner in s.shared.orders
    requires BeforeLookup(s.calls[id], owner) || s.calls[id] == Replied(owner, true)
    ensures var t := Step(reqs, s, a);
            id in t.calls && (BeforeLookup(t.calls[id], owner) || t.calls[id] == Replied(owner, true))
  {
  }

  /** Once the owner's order is stored, every call with the key that has yet to look it up is answered with
      that order and creates nothing, whatever else happens in between. */
  lemma {:induction false} LaterLookupsFindOwner(reqs: Requests, run: seq<Action>, more: seq<Action>,
                                                id: string, owner: string)
    requires id in reqs && reqs[id].key != ""
    requires var s := Run(reqs, run);
             Owns(s.shared, reqs[id].key, owner) && owner in s.shared.orders && id in s.calls
             && (s.calls[id] == Start || s.calls[id].Looking?)
    ensures var t := Run(reqs, run + more);
            && id in t.calls
            && (BeforeLookup(t.calls[id], owner) || t.calls[id] == Replied(owner, true))
            && id !in t.shared.orders
  {
    RunKeepsInv(reqs, run + more);
    RunOn(reqs, run, more);
    if more == [] {
      assert run + more == run;
    } else {
      var shorter := more[..|more| - 1];
      LaterLookupsFindOwner(reqs, run, shorter, id, owner);
      RunOn(reqs, run, shorter);
      OwnerNeverChanges(reqs, Run(reqs, run), shorter);
      StepFindsOwner(reqs, Run(reqs, run + shorter), more[|more| - 1], id, owner);
    }
    assert Fits(Run(reqs, run + more).shared, Misses(reqs, run + more), reqs[id], id, Run(reqs, run + more).calls[id]);
  }

  // ---- Counting orders ----

  /** The owner's order, if it is stored. */
  function OwnersOrder(s: Shared, key: string): set<string> {
    if key in s.records && s.records[key] in s.orders then {s.records[key]} else {}
  }

  lemma CreatorOf(reqs: Requests, s: System, misses: set<string>, key: string, id: string)
    requires Inv(reqs, s, misses) && key != ""
    ensures id in OrdersWith(s.shared, key) ==>
      id in OwnersOrder(s.shared, key) || (id in misses && id in reqs && reqs[id].key == key)
    ensures id in OwnersOrder(s.shared, key) ==> id in OrdersWith(s.shared, key) && id !in misses
    ensures id in misses && id in reqs && reqs[id].key == key && id in s.shared.orders ==>
      id in OrdersWith(s.shared, key)
  {
    if id in reqs {
      assert Fits(s.shared, misses, reqs[id], id, s.calls[id]);
    }
  }

  /** The orders stored with a key are the owner's and those of the calls that missed it, and nothing else:
      never more than one and the misses. */
  lemma OrdersOfKey(reqs: Requests, run: seq<Action>, key: string)
    requires key != ""
    ensures var s, misses := Run(reqs, run).shared, MissesOf(reqs, run, key);
            && OrdersWith(s, key) == OwnersOrder(s, key) + (misses * s.orders.Keys)
            && OwnersOrder(s, key) !! misses
            && |OrdersWith(s, key)| <= 1 + |misses|
  {
    RunKeepsInv(reqs, run);
    hide Inv, Run, Misses;
    var s, misses := Run(reqs, run), MissesOf(reqs, run, key);
    forall id
      ensures id in OrdersWith(s.shared, key) <==> id in OwnersOrder(s.shared, key) + (misses * s.shared.orders.Keys)
      ensures id in OwnersOrder(s.shared, key) ==> id !in misses
    {
      CreatorOf(reqs, s, Misses(reqs, run), key, id);
    }
    SubsetSize(misses * s.shared.orders.Keys, misses);
  }

  ghost predicate AllReplied(reqs: Requests, s: System, key: string) {
    forall id | id in reqs && reqs[id].key == key :: id in s.calls && s.calls[id].Replied?
  }

  lemma OnceReplied(reqs: Requests, s: System, misses: set<string>, key: string, id: string)
    requires Inv(reqs, s, misses) && key != "" && id in reqs && reqs[id].key == key
    requires AllReplied(reqs, s, key)
    ensures |OwnersOrder(s.shared, key)| == 1
    ensures id in misses ==> id in s.shared.orders
  {
    assert Fits(s.shared, misses, reqs[id], id, s.calls[id]);
    var owner := s.shared.records[key];
    assert Fits(s.shared, misses, reqs[owner], owner, s.calls[owner]);
  }

  /** When every call with a key has been answered, the key has one order and one more for each miss:
      exactly one if and only if no lookup came too early. */
  lemma OrdersWhenAllReplied(reqs: Requests, run: seq<Action>, key: string, id: string)
    requires key != "" && id in reqs && reqs[id].key == key && AllReplied(reqs, Run(reqs, run), key)
    ensures |OrdersWith(Run(reqs, run).shared, key)| == 1 + |MissesOf(reqs, run, key)|
    ensures |OrdersWith(Run(reqs, run).shared, key)| == 1 <==> MissesOf(reqs, run, key) == {}
  {
    RunKeepsInv(reqs, run);
    OrdersOfKey(reqs, run, key);
    hide Inv, Run, Misses, OrdersWith, OwnersOrder, AllReplied;
    var s, misses := Run(reqs, run), MissesOf(reqs, run, key);
    OnceReplied(reqs, s, Misses(reqs, run), key, id);
    forall other | other in misses
      ensures other in s.shared.orders
    {
      OnceReplied(reqs, s, Misses(reqs, run), key, other);
    }
    assert misses * s.shared.orders.Keys == misses;
  }

  // ---- Serial runs ----

  predicate Busy(pc: Pc) {
    pc != Start && !pc.Replied?
  }

  ghost predicate StartsAlone(s: System, a: Action) {
    a.Advance? && a.id in s.calls && s.calls[a.id] == Start ==> forall id | id in s.calls :: !Busy(s.calls[id])
  }

  /** No call starts while another is under way. */
  ghost predicate OneAtATime(reqs: Requests, run: seq<Action>) {
    forall n | 0 <= n < |run| :: StartsAlone(Run(reqs, run[..n]), run[n])
  }

  ghost predicate AtMostOneBusy(s: System) {
    forall a, b | a in s.calls && b in s.calls && Busy(s.calls[a]) && Busy(s.calls[b]) :: a == b
  }

  lemma StepOneBusy(reqs: Requests, s: System, a: Action)
    requires AtMostOneBusy(s) && StartsAlone(s, a)
    ensures AtMostOneBusy(Step(reqs, s, a))
  {
  }

  /** Calls that do not overlap never miss, so a key never has more than one order. */
  lemma {:induction false} SerialNeverMisses(reqs: Requests, run: seq<Action>)
    requires OneAtATime(reqs, run)
    ensures AtMostOneBusy(Run(reqs, run)) && Misses(reqs, run) == {}
    ensures forall key | key != "" :: |OrdersWith(Run(reqs, run).shared, key)| <= 1
  {
    if run == [] {
    } else {
      var before, last := run[..|run| - 1], run[|run| - 1];
      assert forall n | 0 <= n <= |before| :: before[..n] == run[..n];
      SerialNeverMisses(reqs, before);
      RunKeepsInv(reqs, before);
      var s := Run(reqs, before);
      StepOneBusy(reqs, s, last);
      if last.Advance? && last.id in reqs && s.calls[last.id].Looking? {
        var owner := s.calls[last.id].owner;
        assert Fits(s.shared, {}, reqs[last.id], last.id, s.calls[last.id]);
        assert Fits(s.shared, {}, reqs[owner], owner, s.calls[owner]);
        assert !Busy(s.calls[owner]);
      }
    }
    forall key | key != ""
      ensures |OrdersWith(Run(reqs, run).shared, key)| <= 1
    {
      OrdersOfKey(reqs, run, key);
      assert MissesOf(reqs, run, key) == {};
    }
  }

  // ---- Two calls that overlap ----

  lemma OneMore(reqs: Requests, run: seq<Action>, a: Action)
    ensures Run(reqs, run + [a]) == Step(reqs, Run(reqs, run), a)
  {
    RunOn(reqs, run, [a]);
    assert [a][..0] == [];
    assert From(reqs, Run(reqs, run), []) == Run(reqs, run);
  }

  /** A retry with the same key that arrives while the first call is between recording the key and storing its
      order creates a second order, so keys alone do not prevent duplicates. */
  lemma OverlappingRetryDuplicates(a: string, b: string, r: Request)
    requires a != b && r.key != ""
    ensures exists run :: |OrdersWith(Run(map[a := r, b := r], run).shared, r.key)| == 2
  {
    var reqs := map[a := r, b := r];
    var first, second := Advance(a, true), Advance(b, true);
    var run := [];
    OneMore(reqs, run, first);
    run := run + [first];
    OneMore(reqs, run, second);
    run := run + [second];
    assert Run(reqs, run).calls == map[a := Creating, b := Looking(a)];
    OneMore(reqs, run, second);
    run := run + [second];
    assert Run(reqs, run).calls == map[a := Creating, b := Creating];
    OneMore(reqs, run, first);
    run := run + [first];
    OneMore(reqs, run, second);
    run := run + [second];
    assert OrdersWith(Run(reqs, run).shared, r.key) == {a, b};
  }
}
