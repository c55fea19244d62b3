/** When tokens are issued, with the conditions written out: what is available, what is listed, what is left. */
module TokenProgress {
  import opened Common
  import opened TokenIssuance

  /** The last entry under the identifier has this duty, and no entry before it has one. */
  ghost predicate Listed(nodes: seq<Node>, id: nat, generation: nat) {
    && generation != 0
    && exists i :: 0 <= i < |nodes| && nodes[i] == Node(id, generation)
                   && (forall j :: 0 <= j < i && nodes[j].id == id ==> nodes[j].generation == 0)
                   && (forall j :: i < j < |nodes| ==> nodes[j].id != id)
  }

  lemma {:induction false} NoneListed(nodes: seq<Node>, id: nat)
    requires forall j :: 0 <= j < |nodes| && nodes[j].id == id ==> nodes[j].generation == 0
    ensures forall k :: 0 <= k < |Generations(nodes, id)| ==> Generations(nodes, id)[k] == 0
  {
    if nodes != [] { NoneListed(nodes[..|nodes| - 1], id); }
  }

  lemma {:induction false} AllZero(nodes: seq<Node>, id: nat)
    requires forall k :: 0 <= k < |Generations(nodes, id)| ==> Generations(nodes, id)[k] == 0
    ensures forall j :: 0 <= j < |nodes| && nodes[j].id == id ==> nodes[j].generation == 0
  {
    if nodes != [] {
      var rest, g := nodes[..|nodes| - 1], Generations(nodes, id);
      assert forall k :: 0 <= k < |Generations(rest, id)| ==> Generations(rest, id)[k] == g[k];
      if nodes[|nodes| - 1].id == id { assert g[|g| - 1] == nodes[|nodes| - 1].generation; }
      AllZero(rest, id);
    }
  }

  /** The search by list of generations, against the list of nodes itself. */
  lemma {:induction false} KnownIsListed(nodes: seq<Node>, id: nat, generation: nat)
    ensures Known(nodes, id) && DutyOf(nodes, id) == generation <==> Listed(nodes, id, generation)
  {
    if nodes != [] {
      var last := |nodes| - 1;
      var rest := nodes[..last];
      if nodes[last].id != id {
        assert Generations(nodes, id) == Generations(rest, id);
        KnownIsListed(rest, id, generation);
        ListedThrough(nodes, id, generation);
      } else {
        if Known(nodes, id) && DutyOf(nodes, id) == generation {
          var g := Generations(nodes, id);
          assert forall k :: 0 <= k < |Generations(rest, id)| ==> Generations(rest, id)[k] == g[k];
          AllZero(rest, id);
          assert forall j :: 0 <= j < last ==> rest[j] == nodes[j];
          assert nodes[last] == Node(id, generation);
        }
        if Listed(nodes, id, generation) {
          assert forall j :: 0 <= j < last ==> rest[j] == nodes[j];
          NoneListed(rest, id);
        }
      }
    }
  }

  lemma ListedThrough(nodes: seq<Node>, id: nat, generation: nat)
    requires nodes != [] && nodes[|nodes| - 1].id != id
    ensures Listed(nodes[..|nodes| - 1], id, generation) <==> Listed(nodes, id, generation)
  {
    var rest := nodes[..|nodes| - 1];
    if Listed(rest, id, generation) {
      var i :| 0 <= i < |rest| && rest[i] == Node(id, generation)
               && (forall j :: 0 <= j < i && rest[j].id == id ==> rest[j].generation == 0)
               && (forall j :: i < j < |rest| ==> rest[j].id != id);
      assert nodes[i] == Node(id, generation);
      assert forall j :: 0 <= j < |rest| ==> rest[j] == nodes[j];
    }
    if Listed(nodes, id, generation) {
      var i :| 0 <= i < |nodes| && nodes[i] == Node(id, generation)
               && (forall j :: 0 <= j < i && nodes[j].id == id ==> nodes[j].generation == 0)
               && (forall j :: i < j < |nodes| ==> nodes[j].id != id);
      assert rest[i] == Node(id, generation);
      assert forall j :: 0 <= j < |rest| ==> rest[j] == nodes[j];
    }
  }

  /** Everything is available, every receiver is listed, and the issuer answers with tokens. */
  ghost predicate Granted(attempt: Attempt, receivers: seq<nat>) {
    && attempt.world.ready && attempt.world.prepares && attempt.outcome.Tokens?
    && forall r <- receivers :: exists generation :: Listed(attempt.world.nodes, r, generation)
  }

  /** The work is of a class, for one to 32 receivers, and within what is left of the allocation. */
  predicate Within(p: Permission, receivers: seq<nat>, tokenClass: nat) {
    && 1 <= tokenClass <= 3 && 0 < |receivers| <= 32 && |p.maxima| == |p.reserved| == 3
    && p.reserved[tokenClass - 1] + |receivers| <= p.maxima[tokenClass - 1]
  }

  lemma GrantedIsKnown(attempt: Attempt, receivers: seq<nat>)
    requires Granted(attempt, receivers)
    ensures forall r <- receivers :: Known(attempt.world.nodes, r)
  {
    forall r <- receivers ensures Known(attempt.world.nodes, r) {
      var generation :| Listed(attempt.world.nodes, r, generation);
      KnownIsListed(attempt.world.nodes, r, generation);
    }
  }

  lemma WithinStarts(p: Permission, prefix: Option<nat>, receivers: seq<nat>, tokenClass: nat, attempt: Attempt)
    requires p.pending.None? && Within(p, receivers, tokenClass) && Granted(attempt, receivers)
    requires prefix.None? ==> p.batches < 2
    ensures Startable(p, None, prefix, receivers, tokenClass, false, attempt.world)
  {
    hide Known, Listed;
    GrantedIsKnown(attempt, receivers);
  }

  /** Without a prefix the first two batches are made, each within the allocation. */
  method IssuesFirst(owner: Owner, receivers: seq<nat>, tokenClass: nat, outer: Attempt, inner: Attempt) returns (ok: bool)
    requires owner.Valid() && owner.flight.None? && owner.permission.pending.None?
    requires owner.prefix.None? && owner.permission.batches < 2
    requires Within(owner.permission, receivers, tokenClass) && Granted(outer, receivers)
    modifies owner
    ensures owner.Valid() && ok && owner.permission.pending.None?
    ensures owner.permission.reserved
            == old(owner.permission.reserved)[tokenClass - 1 := old(owner.permission.reserved)[tokenClass - 1] + |receivers|]
    ensures StockOf(owner.permission.stock, tokenClass - 1) >= StockOf(old(owner.permission).stock, tokenClass - 1) + |receivers|
  {
    hide Sound, Held, StockOf, Startable, Grown, Prepares, Prepared, Granted;
    WithinStarts(owner.permission, owner.prefix, receivers, tokenClass, outer);
    GrantedGives(outer, receivers);
    ghost var cost, between;
    ok, cost, between := owner.Issue(receivers, tokenClass, false, outer, inner);
  }

  lemma GrantedGives(attempt: Attempt, receivers: seq<nat>)
    requires Granted(attempt, receivers)
    ensures attempt.world.ready && attempt.outcome.Tokens?
  {
  }

  /** Through a prefix, with two admissions in stock, the tokens are made without a refill. */
  method IssuesThrough(owner: Owner, receivers: seq<nat>, tokenClass: nat, outer: Attempt, inner: Attempt) returns (ok: bool)
    requires owner.Valid() && owner.flight.None? && owner.permission.pending.None? && owner.prefix.Some?
    requires |Admissions(owner.permission, owner.issuer, owner.issuerGeneration)| >= 2 && inner.world.ready
    requires Within(owner.permission, receivers, tokenClass) && Granted(outer, receivers)
    requires outer.passage == Passage(true, true, true)
    modifies owner
    ensures owner.Valid() && ok && owner.permission.pending.None?
    ensures owner.permission.reserved
            == old(owner.permission.reserved)[tokenClass - 1 := old(owner.permission.reserved)[tokenClass - 1] + |receivers|]
  {
    hide Sound, Held, StockOf, Startable, Grown, Granted;
    WithinStarts(owner.permission, owner.prefix, receivers, tokenClass, outer);
    GrantedGives(outer, receivers);
    ghost var cost, between;
    ok, cost, between := owner.Issue(receivers, tokenClass, false, outer, inner);
  }

  /** The request is for the pending batch: the same receivers and class, at duties that have not changed. */
  ghost predicate Matches(b: Batch, receivers: seq<nat>, tokenClass: nat, world: World) {
    && !b.refill && b.selection == world.selection && |b.challenges| == |receivers|
    && forall i :: 0 <= i < |receivers| ==>
         && b.challenges[i].receiver == receivers[i] && b.challenges[i].tokenClass == tokenClass
         && Listed(world.nodes, receivers[i], b.challenges[i].generation)
  }

  lemma MatchesResumes(b: Batch, prefix: Option<nat>, receivers: seq<nat>, tokenClass: nat, world: World)
    requires Matches(b, receivers, tokenClass, world) && (b.prefix.Some? ==> b.prefix == prefix)
    ensures Resumes(b, prefix, Challenges(receivers, tokenClass, world.nodes), false, world.selection)
    ensures forall r <- receivers :: Known(world.nodes, r)
  {
    hide Listed, Known, DutyOf;
    forall i | 0 <= i < |receivers|
      ensures Known(world.nodes, receivers[i]) && b.challenges[i] == Challenges(receivers, tokenClass, world.nodes)[i]
    {
      KnownIsListed(world.nodes, receivers[i], b.challenges[i].generation);
    }
  }

  /** A pending batch is resumed for the same work, and nothing more is reserved for it. */
  method IssuesPending(owner: Owner, receivers: seq<nat>, tokenClass: nat, outer: Attempt, inner: Attempt) returns (ok: bool)
    requires owner.Valid() && owner.flight.None? && owner.permission.pending.Some?
    requires 1 <= tokenClass <= 3 && 0 < |receivers| <= 32 && outer.world.ready && inner.world.ready && outer.outcome.Tokens?
    requires Matches(owner.permission.pending.value, receivers, tokenClass, outer.world)
    requires owner.permission.pending.value.prefix.Some? ==>
               && owner.permission.pending.value.prefix == owner.prefix && outer.passage == Passage(true, true, true)
               && Admissions(owner.permission, owner.issuer, owner.issuerGeneration) != []
    modifies owner
    ensures owner.Valid() && ok && owner.permission.pending.None?
    ensures owner.permission.reserved == old(owner.permission.reserved)
  {
    hide Sound, Held, StockOf, Grown, Challenges, Known, Listed;
    SoundShape(owner.permission, owner.account, owner.issuer);
    MatchesResumes(owner.permission.pending.value, owner.prefix, receivers, tokenClass, outer.world);
    ghost var cost, between;
    ok, cost, between := owner.Issue(receivers, tokenClass, false, outer, inner);
  }
}
