/**
 Token issuance of one text context: what a permission allows per class, the one batch in the making, the finished
 stock, and the refill of issuer stock that issuing calls and that itself issues. A batch is reserved in one critical
 section and concluded in another, with an exchange in between. An exchange through an open prefix is admitted by the
 issuer for one Control token, which a third section takes out of the same stock.
 */
module TokenIssuance {
  import opened Common

  type Token = nat

  /** The varying part of a token context; network, profile, issuer and window are those of the permission. */
  datatype Challenge = Challenge(receiver: nat, generation: nat, tokenClass: nat)

  datatype Batch = Batch(refill: bool, prefix: Option<nat>, challenges: seq<Challenge>, selection: nat)

  datatype Stock = Stock(challenge: Challenge, tokens: seq<Token>)

  datatype Permission = Permission(maxima: seq<nat>, reserved: seq<nat>, batches: nat, pending: Option<Batch>, stock: seq<Stock>)

  /** Per class: tokens finished, allocations lost with their batch, finished tokens taken out of stock. */
  datatype Account = Account(finished: seq<nat>, burned: seq<nat>, spent: seq<nat>)

  datatype Node = Node(id: nat, generation: nat)

  /** What a critical section finds outside: is everything available, which source, which duty each node has. */
  datatype World = World(ready: bool, selection: nat, nodes: seq<Node>, prepares: bool)

  /**
   How the issuer's admission went: whether the exchange came to ask for a token, whether the asking was in order, and
   whether the token it was given could be verified and written down while the owner was still current.
   */
  datatype Passage = Passage(asked: bool, authorized: bool, marked: bool)

  /** How the exchange of a batch ended. */
  datatype Outcome = Cleanup | Changed | Cancelled(discard: bool) | Failed | Unusable | Tokens(mint: nat -> Token)

  /** Everything outside that one exchange meets. */
  datatype Attempt = Attempt(world: World, passage: Passage, outcome: Outcome)

  const BOOTSTRAP := 2
  const MAXIMUM_BATCH := 32

  /** Subtraction and addition of 32-bit unsigned numbers. */
  function Sub32(a: nat, b: nat): nat {
    (a - b) % UINT32_LIMIT
  }

  function Add32(a: nat, b: nat): nat {
    (a + b) % UINT32_LIMIT
  }

  // ---------- the account ----------

  function PendingOf(p: Permission, k: nat): nat {
    if p.pending.Some? && p.pending.value.challenges != [] && p.pending.value.challenges[0].tokenClass == k + 1
    then |p.pending.value.challenges| else 0
  }

  function StockOf(stock: seq<Stock>, k: nat): nat {
    if stock == [] then 0
    else StockOf(stock[..|stock| - 1], k)
         + if stock[|stock| - 1].challenge.tokenClass == k + 1 then |stock[|stock| - 1].tokens| else 0
  }

  /** One batch is of one class, and a refill is of Control tokens for the issuer itself. */
  predicate WellMade(b: Batch, issuer: nat) {
    && 0 < |b.challenges| <= MAXIMUM_BATCH
    && 1 <= b.challenges[0].tokenClass <= 3
    && (forall c <- b.challenges :: c.tokenClass == b.challenges[0].tokenClass)
    && (b.refill ==> forall c <- b.challenges :: c.tokenClass == 1 && c.receiver == issuer)
  }

  /**
   Nothing is allocated beyond the permission, and every allocation is a finished token, a burned one or part of the
   pending batch; every finished token is in stock or was taken out.
   */
  predicate Balanced(p: Permission, a: Account, k: nat)
    requires k < 3 && |p.maxima| == |p.reserved| == |a.finished| == |a.burned| == |a.spent| == 3
  {
    && p.reserved[k] <= p.maxima[k] < UINT32_LIMIT
    && p.reserved[k] == a.finished[k] + a.burned[k] + PendingOf(p, k)
    && a.finished[k] == StockOf(p.stock, k) + a.spent[k]
  }

  predicate Sound(p: Permission, a: Account, issuer: nat) {
    && |p.maxima| == |p.reserved| == |a.finished| == |a.burned| == |a.spent| == 3
    && p.batches <= BOOTSTRAP
    && (p.pending.Some? ==> WellMade(p.pending.value, issuer))
    && Distinct(p.stock)
    && Balanced(p, a, 0) && Balanced(p, a, 1) && Balanced(p, a, 2)
  }

  // ---------- the stock ----------

  predicate Distinct(stock: seq<Stock>) {
    forall i, j :: 0 <= i < j < |stock| ==> stock[i].challenge != stock[j].challenge
  }

  lemma {:induction false} StockChanges(stock: seq<Stock>, i: nat, tokens: seq<Token>, k: nat)
    requires i < |stock|
    ensures var was := if stock[i].challenge.tokenClass == k + 1 then |stock[i].tokens| else 0;
            var now := if stock[i].challenge.tokenClass == k + 1 then |tokens| else 0;
            StockOf(stock[i := stock[i].(tokens := tokens)], k) + was == StockOf(stock, k) + now
  {
    var last := |stock| - 1;
    var changed := stock[i := stock[i].(tokens := tokens)];
    if i == last {
      assert changed[..last] == stock[..last];
    } else {
      StockChanges(stock[..last], i, tokens, k);
      assert changed[..last] == stock[..last][i := stock[..last][i].(tokens := tokens)];
    }
  }

  /** The tokens held for one challenge. */
  function Held(stock: seq<Stock>, c: Challenge): seq<Token> {
    if stock == [] then []
    else if stock[0].challenge == c then stock[0].tokens
    else Held(stock[1..], c)
  }

  lemma {:induction false} HeldAt(stock: seq<Stock>, i: nat)
    requires Distinct(stock) && i < |stock|
    ensures Held(stock, stock[i].challenge) == stock[i].tokens
  {
    if i > 0 { HeldAt(stock[1..], i - 1); }
  }

  lemma {:induction false} HeldAbsent(stock: seq<Stock>, c: Challenge)
    requires forall s <- stock :: s.challenge != c
    ensures Held(stock, c) == []
  {
    if stock != [] { HeldAbsent(stock[1..], c); }
  }

  /** One more token for its challenge. */
  method AddToken(stock: seq<Stock>, c: Challenge, token: Token) returns (next: seq<Stock>)
    requires Distinct(stock)
    ensures Distinct(next)
    ensures Held(next, c) == Held(stock, c) + [token]
    ensures forall other :: other != c ==> Held(next, other) == Held(stock, other)
    ensures forall k: nat :: StockOf(next, k) == StockOf(stock, k) + if c.tokenClass == k + 1 then 1 else 0
  {
    for slot := 0 to |stock|
      invariant forall i :: 0 <= i < slot ==> stock[i].challenge != c
    {
      if stock[slot].challenge == c {
        next := stock[slot := stock[slot].(tokens := stock[slot].tokens + [token])];
        Replaced(stock, slot, stock[slot].tokens + [token]);
        return;
      }
    }
    next := stock + [Stock(c, [token])];
    Appended(stock, c, token);
  }

  lemma Replaced(stock: seq<Stock>, i: nat, tokens: seq<Token>)
    requires Distinct(stock) && i < |stock|
    ensures var next := stock[i := stock[i].(tokens := tokens)];
            && Distinct(next) && Held(next, stock[i].challenge) == tokens
            && (forall other :: other != stock[i].challenge ==> Held(next, other) == Held(stock, other))
            && Held(stock, stock[i].challenge) == stock[i].tokens
            && (forall k: nat :: StockOf(next, k) == StockOf(stock, k)
                  + if stock[i].challenge.tokenClass == k + 1 then |tokens| - |stock[i].tokens| else 0)
  {
    var next := stock[i := stock[i].(tokens := tokens)];
    HeldAt(stock, i);
    HeldAt(next, i);
    forall other | other != stock[i].challenge ensures Held(next, other) == Held(stock, other) {
      HeldElsewhere(stock, i, tokens, other);
    }
    forall k: nat ensures StockOf(next, k) == StockOf(stock, k)
                          + if stock[i].challenge.tokenClass == k + 1 then |tokens| - |stock[i].tokens| else 0
    {
      StockChanges(stock, i, tokens, k);
    }
  }

  lemma {:induction false} HeldElsewhere(stock: seq<Stock>, i: nat, tokens: seq<Token>, other: Challenge)
    requires i < |stock| && stock[i].challenge != other
    ensures Held(stock[i := stock[i].(tokens := tokens)], other) == Held(stock, other)
  {
    var next := stock[i := stock[i].(tokens := tokens)];
    if i == 0 {
      assert next[1..] == stock[1..];
    } else {
      HeldElsewhere(stock[1..], i - 1, tokens, other);
      assert next[1..] == stock[1..][i - 1 := stock[i].(tokens := tokens)];
    }
  }

  lemma Appended(stock: seq<Stock>, c: Challenge, token: Token)
    requires Distinct(stock) && forall i :: 0 <= i < |stock| ==> stock[i].challenge != c
    ensures var next := stock + [Stock(c, [token])];
            && Distinct(next) && Held(next, c) == Held(stock, c) + [token]
            && (forall other :: other != c ==> Held(next, other) == Held(stock, other))
            && (forall k: nat :: StockOf(next, k) == StockOf(stock, k) + if c.tokenClass == k + 1 then 1 else 0)
  {
    var next := stock + [Stock(c, [token])];
    HeldAt(next, |stock|);
    HeldAbsent(stock, c);
    forall other | other != c ensures Held(next, other) == Held(stock, other) {
      HeldAppended(stock, c, [token], other);
    }
    assert next[..|stock|] == stock;
  }

  lemma {:induction false} HeldAppended(stock: seq<Stock>, c: Challenge, tokens: seq<Token>, other: Challenge)
    requires other != c
    ensures Held(stock + [Stock(c, tokens)], other) == Held(stock, other)
  {
    if stock != [] {
      HeldAppended(stock[1..], c, tokens, other);
      assert (stock + [Stock(c, tokens)])[1..] == stock[1..] + [Stock(c, tokens)];
    }
  }

  /** The tokens of a batch that were made for one challenge, in order. */
  function MadeFor(challenges: seq<Challenge>, tokens: seq<Token>, c: Challenge): seq<Token>
    requires |challenges| == |tokens|
  {
    if challenges == [] then []
    else
      var last := |challenges| - 1;
      MadeFor(challenges[..last], tokens[..last], c) + if challenges[last] == c then [tokens[last]] else []
  }

  /** The finished tokens of a batch join the stock, each under its own challenge. */
  method AddBatch(stock: seq<Stock>, challenges: seq<Challenge>, tokens: seq<Token>) returns (next: seq<Stock>)
    requires Distinct(stock) && |challenges| == |tokens| > 0
    requires forall c <- challenges :: c.tokenClass == challenges[0].tokenClass
    ensures Distinct(next)
    ensures forall c :: Held(next, c) == Held(stock, c) + MadeFor(challenges, tokens, c)
    ensures forall k: nat :: StockOf(next, k) == StockOf(stock, k) + if challenges[0].tokenClass == k + 1 then |challenges| else 0
  {
    next := stock;
    for index := 0 to |challenges|
      invariant Distinct(next)
      invariant forall c :: Held(next, c) == Held(stock, c) + MadeFor(challenges[..index], tokens[..index], c)
      invariant forall k: nat :: StockOf(next, k) == StockOf(stock, k) + if challenges[0].tokenClass == k + 1 then index else 0
    {
      assert challenges[index] in challenges;
      assert challenges[..index + 1][..index] == challenges[..index] && tokens[..index + 1][..index] == tokens[..index];
      next := AddToken(next, challenges[index], tokens[index]);
    }
    assert challenges[..|challenges|] == challenges && tokens[..|tokens|] == tokens;
  }

  // ---------- reserving a batch ----------

  /** The duty generations listed under one identifier, in order. */
  function Generations(nodes: seq<Node>, id: nat): seq<nat> {
    if nodes == [] then []
    else
      var last := |nodes| - 1;
      Generations(nodes[..last], id) + if nodes[last].id == id then [nodes[last].generation] else []
  }

  /** The last entry has a duty and every earlier one has none; any entry after a duty makes the receiver ambiguous. */
  predicate Determined(generations: seq<nat>) {
    && generations != [] && generations[|generations| - 1] != 0
    && forall i :: 0 <= i < |generations| - 1 ==> generations[i] == 0
  }

  predicate Known(nodes: seq<Node>, id: nat) {
    Determined(Generations(nodes, id))
  }

  function DutyOf(nodes: seq<Node>, id: nat): nat {
    var generations := Generations(nodes, id);
    if Determined(generations) then generations[|generations| - 1] else 0
  }

  /** The search for one receiver: it stops at a second entry once it has a duty, and refuses to find none. */
  method Look(nodes: seq<Node>, receiver: nat) returns (generation: Option<nat>)
    ensures generation == if Known(nodes, receiver) then Some(DutyOf(nodes, receiver)) else None
  {
    var found := 0;
    ghost var seen := [];
    for index := 0 to |nodes|
      invariant seen == Generations(nodes[..index], receiver)
      invariant found == 0 ==> forall i :: 0 <= i < |seen| ==> seen[i] == 0
      invariant found != 0 ==> Determined(seen) && seen[|seen| - 1] == found
    {
      assert nodes[..index + 1][..index] == nodes[..index];
      if nodes[index].id == receiver {
        if found != 0 {
          assert Generations(nodes[..index + 1], receiver)[|seen| - 1] != 0;
          StaysAmbiguous(nodes, receiver, index + 1);
          return None;
        }
        found := nodes[index].generation;
        seen := seen + [found];
      }
    }
    assert nodes[..|nodes|] == nodes;
    if found == 0 { return None; }
    generation := Some(found);
  }

  /** A duty that is not the last entry of its identifier. */
  predicate Ambiguous(generations: seq<nat>) {
    exists i :: 0 <= i < |generations| - 1 && generations[i] != 0
  }

  lemma {:induction false} StaysAmbiguous(nodes: seq<Node>, id: nat, n: nat)
    requires n <= |nodes| && Ambiguous(Generations(nodes[..n], id))
    ensures Ambiguous(Generations(nodes, id)) && !Known(nodes, id)
    decreases |nodes| - n
  {
    if n == |nodes| {
      assert nodes[..n] == nodes;
    } else {
      assert nodes[..n + 1][..n] == nodes[..n];
      var i :| 0 <= i < |Generations(nodes[..n], id)| - 1 && Generations(nodes[..n], id)[i] != 0;
      assert Generations(nodes[..n + 1], id)[i] != 0;
      StaysAmbiguous(nodes, id, n + 1);
    }
  }

  /** The challenges for the receivers, each at its present duty. */
  function Challenges(receivers: seq<nat>, tokenClass: nat, nodes: seq<Node>): (challenges: seq<Challenge>)
    ensures |challenges| == |receivers|
    ensures receivers != [] ==> challenges[0].tokenClass == tokenClass
  {
    seq(|receivers|, i requires 0 <= i < |receivers| => Challenge(receivers[i], DutyOf(nodes, receivers[i]), tokenClass))
  }

  method Build(receivers: seq<nat>, tokenClass: nat, nodes: seq<Node>) returns (challenges: Option<seq<Challenge>>)
    ensures challenges == if forall r <- receivers :: Known(nodes, r) then Some(Challenges(receivers, tokenClass, nodes))
                          else None
  {
    hide Known, DutyOf;
    var built: seq<Challenge> := [];
    for index := 0 to |receivers|
      invariant forall r <- receivers[..index] :: Known(nodes, r)
      invariant |built| == index
      invariant forall i :: 0 <= i < index ==> built[i] == Challenge(receivers[i], DutyOf(nodes, receivers[i]), tokenClass)
    {
      var receiver := receivers[index];
      assert receiver in receivers;
      var generation := Look(nodes, receiver);
      if generation.None? { return None; }
      assert receivers[..index + 1] == receivers[..index] + [receiver];
      built := built + [Challenge(receiver, generation.value, tokenClass)];
    }
    assert receivers[..|receivers|] == receivers;
    assert built == Challenges(receivers, tokenClass, nodes);
    return Some(built);
  }

  /** The request is for the very batch that is pending. */
  predicate Resumes(b: Batch, prefix: Option<nat>, challenges: seq<Challenge>, refill: bool, selection: nat) {
    b.refill == refill && b.challenges == challenges && b.selection == selection && (b.prefix.Some? ==> b.prefix == prefix)
  }

  /** There is room for a new batch: a bootstrap batch among the first two, and an allocation of its class. */
  predicate HasRoom(p: Permission, prefix: Option<nat>, count: nat, tokenClass: nat)
    requires |p.maxima| == |p.reserved| == 3 && 1 <= tokenClass <= 3
  {
    (prefix.None? ==> p.batches < BOOTSTRAP) && p.reserved[tokenClass - 1] + count <= p.maxima[tokenClass - 1]
  }

  lemma SoundShape(p: Permission, a: Account, issuer: nat)
    requires Sound(p, a, issuer)
    ensures |p.maxima| == |p.reserved| == 3
  {
  }

  function Reserved(p: Permission, b: Batch): Permission
    requires |p.reserved| == 3 && b.challenges != [] && 1 <= b.challenges[0].tokenClass <= 3
  {
    var k := b.challenges[0].tokenClass - 1;
    p.(pending := Some(b), reserved := p.reserved[k := p.reserved[k] + |b.challenges|],
       batches := if b.prefix.None? then p.batches + 1 else p.batches)
  }

  lemma BatchIsWellMade(receivers: seq<nat>, tokenClass: nat, refill: bool, prefix: Option<nat>, world: World, issuer: nat)
    requires 1 <= tokenClass <= 3 && 0 < |receivers| <= MAXIMUM_BATCH
    requires refill ==> tokenClass == 1 && forall r <- receivers :: r == issuer
    ensures WellMade(Batch(refill, prefix, Challenges(receivers, tokenClass, world.nodes), world.selection), issuer)
  {
    var challenges := Challenges(receivers, tokenClass, world.nodes);
    forall c | c in challenges ensures c.tokenClass == tokenClass && c.receiver in receivers {
      var i :| 0 <= i < |challenges| && challenges[i] == c;
    }
  }

  /** The unsigned subtraction never wraps, so the check is the plain comparison. */
  lemma NoWrap(p: Permission, a: Account, issuer: nat, tokenClass: nat, count: nat)
    requires Sound(p, a, issuer) && 1 <= tokenClass <= 3
    ensures var reserved, maximum := p.reserved[tokenClass - 1], p.maxima[tokenClass - 1];
            && Sub32(maximum, reserved) == maximum - reserved
            && (reserved + count <= maximum ==> Add32(reserved, count) == reserved + count)
  {
    assert Balanced(p, a, tokenClass - 1);
  }

  lemma ReserveIsSound(p: Permission, a: Account, issuer: nat, b: Batch)
    requires Sound(p, a, issuer) && p.pending.None? && WellMade(b, issuer)
    requires HasRoom(p, b.prefix, |b.challenges|, b.challenges[0].tokenClass)
    ensures Sound(Reserved(p, b), a, issuer)
  {
  }

  // ---------- concluding a batch ----------

  function Minted(mint: nat -> Token, count: nat): (tokens: seq<Token>)
    ensures |tokens| == count
  {
    seq<Token>(count, i requires 0 <= i => mint(i))
  }

  function Added(counts: seq<nat>, b: Batch): seq<nat>
    requires |counts| == 3 && b.challenges != [] && 1 <= b.challenges[0].tokenClass <= 3
  {
    var k := b.challenges[0].tokenClass - 1;
    counts[k := counts[k] + |b.challenges|]
  }

  lemma BurnIsSound(p: Permission, a: Account, issuer: nat)
    requires Sound(p, a, issuer) && p.pending.Some?
    ensures Sound(p.(pending := None), a.(burned := Added(a.burned, p.pending.value)), issuer)
  {
  }

  lemma FinishIsSound(p: Permission, a: Account, issuer: nat, stock: seq<Stock>)
    requires Sound(p, a, issuer) && p.pending.Some? && Distinct(stock)
    requires forall k: nat :: StockOf(stock, k) == StockOf(p.stock, k)
               + if p.pending.value.challenges[0].tokenClass == k + 1 then |p.pending.value.challenges| else 0
    ensures Sound(p.(pending := None, stock := stock), a.(finished := Added(a.finished, p.pending.value)), issuer)
  {
  }

  // ---------- the owner ----------

  /** The exchange under way, and the permission it was started under. */
  datatype Flight = Flight(permission: nat, batch: Batch)

  class Owner {
    const issuer: nat
    const issuerGeneration: nat
    var prefix: Option<nat>
    var serial: nat
    var permission: Permission
    var flight: Option<Flight>
    ghost var account: Account

    ghost predicate Valid()
      reads this
    {
      && Sound(permission, account, issuer)
      && (flight.Some? && flight.value.permission == serial ==> permission.pending == Some(flight.value.batch))
      && (flight.Some? ==> flight.value.permission <= serial)
    }

    constructor (issuer: nat, issuerGeneration: nat, maxima: seq<nat>)
      requires |maxima| == 3 && maxima[0] < UINT32_LIMIT && maxima[1] < UINT32_LIMIT && maxima[2] < UINT32_LIMIT
      ensures Valid() && this.issuer == issuer && this.issuerGeneration == issuerGeneration
      ensures permission == Permission(maxima, [0, 0, 0], 0, None, []) && flight.None? && prefix.None?
    {
      this.issuer, this.issuerGeneration, prefix, serial, flight := issuer, issuerGeneration, None, 0, None;
      permission := Permission(maxima, [0, 0, 0], 0, None, []);
      account := Account([0, 0, 0], [0, 0, 0], [0, 0, 0]);
    }

    /** The section that resumes the pending batch or reserves a new one. It starts exactly if that is possible. */
    method Reserve(receivers: seq<nat>, tokenClass: nat, refill: bool, world: World) returns (started: bool)
      requires Valid() && 1 <= tokenClass <= 3 && 0 < |receivers| <= MAXIMUM_BATCH
      requires refill ==> tokenClass == 1 && forall r <- receivers :: r == issuer
      modifies `permission, `flight
      ensures Valid()
      ensures started <==> Startable(old(permission), old(flight), prefix, receivers, tokenClass, refill, world)
      ensures started ==> old(flight).None?
      ensures started ==>
                var challenges := Challenges(receivers, tokenClass, world.nodes);
                && permission.pending.Some? && flight == Some(Flight(serial, permission.pending.value))
                && if old(permission).pending.Some? then permission == old(permission)
                   else permission == Reserved(old(permission), Batch(refill, prefix, challenges, world.selection))
      ensures !started ==> permission == old(permission) && flight == old(flight)
      ensures started ==>
                var b := flight.value.batch;
                && (b.prefix.Some? <==> Prefixed(old(permission), prefix)) && (b.prefix.Some? ==> b.prefix == prefix)
                && b.challenges == Challenges(receivers, tokenClass, world.nodes)
                && permission.stock == old(permission).stock && Grown(old(permission), permission, 0)
      ensures permission.reserved
              == ReservedFor(old(permission), old(flight), prefix, receivers, tokenClass, refill, world)
    {
      hide Sound, WellMade, Sub32, Add32, Challenges, Known;
      SoundShape(permission, account, issuer);
      if !world.ready || flight.Some? { return false; }
      var challenges := Build(receivers, tokenClass, world.nodes);
      if challenges.None? { return false; }
      if permission.pending.Some? {
        if !Resumes(permission.pending.value, prefix, challenges.value, refill, world.selection) { return false; }
      } else {
        if prefix.None? && permission.batches >= BOOTSTRAP { return false; }
        var k := tokenClass - 1;
        NoWrap(permission, account, issuer, tokenClass, |receivers|);
        if |challenges.value| > Sub32(permission.maxima[k], permission.reserved[k]) { return false; }
        if !world.prepares { return false; }
        var batch := Batch(refill, prefix, challenges.value, world.selection);
        BatchIsWellMade(receivers, tokenClass, refill, prefix, world, issuer);
        ReserveIsSound(permission, account, issuer, batch);
        permission := permission.(pending := Some(batch),
          reserved := permission.reserved[k := Add32(permission.reserved[k], |challenges.value|)],
          batches := if batch.prefix.None? then permission.batches + 1 else permission.batches);
      }
      flight := Some(Flight(serial, permission.pending.value));
      started := true;
    }

    /** The section after the exchange. */
    method Conclude(outcome: Outcome) returns (issued: bool)
      requires Valid() && flight.Some?
      modifies `permission, `flight, `account
      ensures Valid() && flight.None?
      ensures issued <==> outcome.Tokens? && old(flight).value.permission == serial
      ensures issued ==>
                var b := old(flight).value.batch;
                && permission == old(permission).(pending := None, stock := permission.stock)
                && (forall c :: Held(permission.stock, c)
                      == Held(old(permission).stock, c) + MadeFor(b.challenges, Minted(outcome.mint, |b.challenges|), c))
                && (forall k: nat :: StockOf(permission.stock, k) == StockOf(old(permission).stock, k)
                      + if b.challenges[0].tokenClass == k + 1 then |b.challenges| else 0)
                && account == old(account).(finished := Added(old(account).finished, b))
      ensures Grown(old(permission), permission, 0)
      ensures !issued ==>
                && permission == (if Burns(outcome) && old(flight).value.permission == serial
                                  then old(permission).(pending := None) else old(permission))
                && account == (if Burns(outcome) && old(flight).value.permission == serial
                               then old(account).(burned := Added(old(account).burned, old(flight).value.batch)) else old(account))
    {
      var concluded := flight.value;
      flight := None;
      if concluded.permission != serial || outcome.Cleanup? || outcome.Changed? || outcome.Failed? { return false; }
      if outcome.Cancelled? || outcome.Unusable? {
        if Burns(outcome) {
          BurnIsSound(permission, account, issuer);
          permission := permission.(pending := None);
          account := account.(burned := Added(account.burned, concluded.batch));
        }
        return false;
      }
      var stock := AddBatch(permission.stock, concluded.batch.challenges,
                           Minted(outcome.mint, |concluded.batch.challenges|));
      FinishIsSound(permission, account, issuer, stock);
      permission := permission.(pending := None, stock := stock);
      account := account.(finished := Added(account.finished, concluded.batch));
      issued := true;
    }

    /** takeTextTokenLocked, as far as the stock goes: the oldest token of the challenge leaves it for good. */
    method Spend(c: Challenge) returns (token: Option<Token>)
      requires Valid()
      modifies `permission, `account
      ensures Valid()
      ensures token == if Held(old(permission).stock, c) == [] then None else Some(Held(old(permission).stock, c)[0])
      ensures permission == old(permission).(stock := permission.stock)
      ensures Held(permission.stock, c) == if token.Some? then Held(old(permission).stock, c)[1..] else []
      ensures forall other :: other != c ==> Held(permission.stock, other) == Held(old(permission).stock, other)
      ensures token.None? ==> permission == old(permission)
      ensures forall k: nat :: StockOf(permission.stock, k) + (if token.Some? && c.tokenClass == k + 1 then 1 else 0)
                == StockOf(old(permission).stock, k)
    {
      var stock := permission.stock;
      for index := 0 to |stock|
        invariant forall i :: 0 <= i < index ==> stock[i].challenge == c ==> stock[i].tokens == []
        invariant permission == old(permission) && account == old(account)
      {
        if stock[index].challenge != c || |stock[index].tokens| == 0 { continue; }
        Replaced(stock, index, stock[index].tokens[1..]);
        SpendIsSound(permission, account, issuer, index);
        permission := permission.(stock := stock[index := stock[index].(tokens := stock[index].tokens[1..])]);
        account := account.(spent := SpentOne(account.spent, c));
        return Some(stock[index].tokens[0]);
      }
      HeldEmpty(stock, c);
      return None;
    }

    /**
     presentTextIssuerToken: one Control token of the issuer's own, for the exchange under way and through its own
     prefix. The token leaves the stock even if it then cannot be presented.
     */
    method Present(passage: Passage) returns (token: Option<Token>, ghost taken: bool)
      requires Valid() && flight.Some?
      modifies `permission, `account
      ensures Valid()
      ensures taken <==> && passage.authorized && Presentable(old(permission), prefix, flight.value)
                         && Admissions(old(permission), issuer, issuerGeneration) != []
      ensures token == if taken && passage.marked then Some(Admissions(old(permission), issuer, issuerGeneration)[0]) else None
      ensures permission == old(permission).(stock := permission.stock)
      ensures Admissions(permission, issuer, issuerGeneration)
              == if taken then Admissions(old(permission), issuer, issuerGeneration)[1..]
                 else Admissions(old(permission), issuer, issuerGeneration)
      ensures forall k: nat :: StockOf(permission.stock, k) + (if taken && k == 0 then 1 else 0)
                == StockOf(old(permission).stock, k)
    {
      hide Sound, Held, StockOf;
      token, taken := None, false;
      if !passage.authorized || !Presentable(permission, prefix, flight.value) { return; }
      token := Spend(Challenge(issuer, issuerGeneration, 1));
      taken := token.Some?;
      if !passage.marked { token := None; }
    }

    /** Another prefix is opened, or the present one is lost. */
    method Reopen(next: Option<nat>)
      requires Valid()
      modifies `prefix
      ensures Valid() && prefix == next
    {
      prefix := next;
    }

    /** A new permission takes the place of the old one, whatever is under way. */
    method Renew(maxima: seq<nat>)
      requires Valid() && |maxima| == 3 && maxima[0] < UINT32_LIMIT && maxima[1] < UINT32_LIMIT && maxima[2] < UINT32_LIMIT
      modifies `permission, `serial, `account
      ensures Valid() && permission == Permission(maxima, [0, 0, 0], 0, None, []) && serial == old(serial) + 1
    {
      permission, serial := Permission(maxima, [0, 0, 0], 0, None, []), serial + 1;
      account := Account([0, 0, 0], [0, 0, 0], [0, 0, 0]);
    }

    /** The issuer's own Control tokens in stock. */
    method CountReady() returns (ready: nat)
      requires Valid()
      ensures ready == |Admissions(permission, issuer, issuerGeneration)|
    {
      var stock, c := permission.stock, Challenge(issuer, issuerGeneration, 1);
      ready := 0;
      for index := 0 to |stock|
        invariant ready == |Held(stock[..index], c)|
      {
        HeldGrows(stock, index, c);
        if stock[index].challenge == c { ready := ready + |stock[index].tokens|; }
      }
      assert stock[..|stock|] == stock;
    }

    /**
     prepareTextIssuerStock. It resumes a pending refill, or starts one if the work at hand needs an issuer admission,
     fewer than two are in stock and the allocation has room. A refill through a prefix costs the last admission, and
     still leaves two or more: this is what the room of two is for.
     */
    method Prepare(requested: seq<nat>, tokenClass: nat, inner: Attempt) returns (ok: bool, ghost admissions: nat)
      requires Valid()
      modifies `permission, `flight, `account
      ensures Valid() && Grown(old(permission), permission, admissions) && admissions <= 1
      ensures flight == old(flight) && (prefix.None? ==> admissions == 0)
      ensures ok <==> Prepares(old(permission), old(flight), prefix, requested, tokenClass, inner, issuer, issuerGeneration)
      ensures ok ==> Prepared(old(permission), permission, prefix, requested, tokenClass, inner, issuer, issuerGeneration)
      ensures ok && Refills(old(permission), prefix, requested, tokenClass, issuer, issuerGeneration) ==>
                admissions == if prefix.Some? then 1 else 0
      decreases 1
    {
      hide Sound, Grown, StockOf, Held, DutyOf, Makes;
      SoundShape(permission, account, issuer);
      SameGrown(permission, account, issuer);
      NoWrap(permission, account, issuer, 1, 0);
      admissions := 0;
      if !inner.world.ready { return false, 0; }
      if permission.pending.Some? {
        var batch := permission.pending.value;
        if !batch.refill { return true, 0; }
        RefillIsOwn(permission, account, issuer);
        ghost var resumed;
        ok, admissions, resumed := Issue(ReceiversOf(batch), 1, true, inner, inner);
        return;
      }
      if tokenClass == 1 && requested != [] && forall r <- requested :: r == issuer { return true, 0; }
      var ready := CountReady();
      var remaining := Sub32(permission.maxima[0], permission.reserved[0]);
      if ready >= 2 || remaining == 0 || (prefix.Some? && (ready == 0 || remaining < 2)) { return true, 0; }
      var count := if remaining < MAXIMUM_BATCH then remaining else MAXIMUM_BATCH;
      ghost var resumed;
      ok, admissions, resumed := Issue(seq(count, _ => issuer), 1, true, inner, inner);
    }

    /**
     issueTextTokensForOpeningWithCancellation. Issuing prepares the issuer stock first, which may issue a refill; a
     refill prepares nothing, so the recursion ends. Success means that all the tokens asked for were made, less one
     Control token if the issuer had to admit them. `between` is the permission from which the exchange starts, if it
     comes to that.
     */
    method Issue(receivers: seq<nat>, tokenClass: nat, refill: bool, outer: Attempt, inner: Attempt)
      returns (ok: bool, ghost admissions: nat, ghost between: Option<Permission>)
      requires Valid() && (refill ==> tokenClass == 1 && forall r <- receivers :: r == issuer)
      modifies `permission, `flight, `account
      ensures Valid() && Grown(old(permission), permission, admissions) && admissions <= (if refill then 1 else 2)
      ensures flight == old(flight) && (prefix.None? ==> admissions == 0)
      ensures between.Some? <==> && 1 <= tokenClass <= 3 && 0 < |receivers| <= MAXIMUM_BATCH
                                 && (prefix.Some? && !refill ==>
                                       Prepares(old(permission), old(flight), prefix, receivers, tokenClass, inner,
                                                issuer, issuerGeneration))
      ensures between.Some? ==>
                if prefix.None? || refill then between.value == old(permission)
                else Prepared(old(permission), between.value, prefix, receivers, tokenClass, inner, issuer, issuerGeneration)
      ensures ok <==> between.Some? && Makes(between.value, old(flight), prefix, receivers, tokenClass, refill, outer,
                                             issuer, issuerGeneration)
      ensures ok ==> permission.reserved
                     == ReservedFor(between.value, old(flight), prefix, receivers, tokenClass, refill, outer.world)
      ensures ok && !refill && prefix.Some? && LastAdmission(old(permission), receivers, tokenClass, issuer, issuerGeneration) ==>
                Replenished(old(permission), permission, receivers, tokenClass, inner, issuer, issuerGeneration)
      ensures ok ==>
                && outer.outcome.Tokens? && 1 <= tokenClass <= 3 && 0 < |receivers| <= MAXIMUM_BATCH
                && permission.pending.None?
                && StockOf(permission.stock, tokenClass - 1) + (if tokenClass == 1 && prefix.Some? then 1 else 0)
                   >= StockOf(old(permission).stock, tokenClass - 1) + |receivers|
      ensures refill && ok ==>
                Refilled(old(permission), permission, prefix, |receivers|, outer, issuer, issuerGeneration, admissions)
      decreases if refill then 0 else 2
    {
      hide Sound, Grown, StockOf, Held, DutyOf, MadeFor, Prepares, Prepared, Startable, Challenges, Replenished, LastAdmission;
      SameGrown(permission, account, issuer);
      SoundShape(permission, account, issuer);
      admissions, between := 0, None;
      if tokenClass < 1 || tokenClass > 3 || |receivers| == 0 || |receivers| > MAXIMUM_BATCH { return false, 0, None; }
      if prefix.Some? && !refill {
        var prepared;
        prepared, admissions := Prepare(receivers, tokenClass, inner);
        if !prepared { return false, admissions, None; }
      }
      between := Some(permission);
      ghost var admitted;
      ok, admitted := Exchange(receivers, tokenClass, refill, outer);
      GrownTwice(old(permission), between.value, permission, admissions, admitted);
      PreparedGrows(old(permission), between.value, prefix, receivers, tokenClass, refill, inner, issuer, issuerGeneration);
      admissions := admissions + admitted;
      CostNeedsPrefix(between.value, flight, prefix, receivers, tokenClass, refill, outer, issuer, issuerGeneration);
      if ok && !refill && prefix.Some? && LastAdmission(old(permission), receivers, tokenClass, issuer, issuerGeneration) {
        LastIsReplenished(old(permission), between.value, permission, prefix, flight, receivers, tokenClass, outer, inner,
                          issuer, issuerGeneration, admitted);
      }
      if refill && ok {
        OwnTokens(receivers, outer.world.nodes, issuer, issuerGeneration, outer.outcome.mint);
        GainsOnSuccess(old(permission), permission, admissions, |receivers|);
      }
    }

    /**
     The two sections and the exchange between them, to the token: a prefixed exchange needs an admission, takes one
     out of stock even if it comes to nothing, and without one makes no tokens.
     */
    method Exchange(receivers: seq<nat>, tokenClass: nat, refill: bool, attempt: Attempt)
      returns (ok: bool, ghost admissions: nat)
      requires Valid() && 1 <= tokenClass <= 3 && 0 < |receivers| <= MAXIMUM_BATCH
      requires refill ==> tokenClass == 1 && forall r <- receivers :: r == issuer
      modifies `permission, `flight, `account
      ensures Valid() && Grown(old(permission), permission, admissions)
      ensures flight == old(flight)
      ensures admissions == Cost(old(permission), old(flight), prefix, receivers, tokenClass, refill, attempt,
                                 issuer, issuerGeneration)
      ensures ok <==> Makes(old(permission), old(flight), prefix, receivers, tokenClass, refill, attempt,
                            issuer, issuerGeneration)
      ensures permission.reserved
              == ReservedFor(old(permission), old(flight), prefix, receivers, tokenClass, refill, attempt.world)
      ensures forall k: nat :: StockOf(permission.stock, k) + (if k == 0 then admissions else 0)
                == StockOf(old(permission).stock, k) + (if ok && k == tokenClass - 1 then |receivers| else 0)
      ensures ok ==>
                && permission.pending.None?
                && Admissions(permission, issuer, issuerGeneration)
                   == Admissions(old(permission), issuer, issuerGeneration)[admissions..]
                      + MadeFor(Challenges(receivers, tokenClass, attempt.world.nodes),
                                Minted(attempt.outcome.mint, |receivers|), Challenge(issuer, issuerGeneration, 1))
    {
      hide Sound, Challenges, StockOf, Held, MadeFor, Minted, Startable, ReservedFor, Prefixed, Grown, Reserved, Added;
      SoundShape(permission, account, issuer);
      SameGrown(permission, account, issuer);
      admissions := 0;
      var started := Reserve(receivers, tokenClass, refill, attempt.world);
      if !started { return false, 0; }
      ghost var reserved := permission;
      var admitted;
      admitted, admissions := Admit(attempt.passage);
      GrownTwice(old(permission), reserved, permission, 0, admissions);
      ghost var between := permission;
      ok := Conclude(if admitted then attempt.outcome else WithoutResult(attempt.outcome));
      GrownTwice(old(permission), between, permission, admissions, 0);
    }

    /** The part of an exchange before the issuer's answer. */
    method Admit(passage: Passage) returns (admitted: bool, ghost admissions: nat)
      requires Valid() && flight.Some? && flight.value.permission == serial
      requires flight.value.batch.prefix.Some? ==> flight.value.batch.prefix == prefix
      modifies `permission, `account
      ensures Valid() && permission == old(permission).(stock := permission.stock)
      ensures Grown(old(permission), permission, admissions)
      ensures admissions == if flight.value.batch.prefix.Some? && Asks(passage)
                               && Admissions(old(permission), issuer, issuerGeneration) != [] then 1 else 0
      ensures admitted <==> flight.value.batch.prefix.None? || (admissions == 1 && passage.marked)
      ensures Admissions(permission, issuer, issuerGeneration)
              == Admissions(old(permission), issuer, issuerGeneration)[admissions..]
      ensures forall k: nat :: StockOf(permission.stock, k) + (if k == 0 then admissions else 0)
                == StockOf(old(permission).stock, k)
    {
      hide Sound, Admissions, StockOf;
      SoundShape(permission, account, issuer);
      admitted, admissions := flight.value.batch.prefix.None?, 0;
      if !admitted && passage.asked {
        var token;
        ghost var taken;
        token, taken := Present(passage);
        admitted := token.Some?;
        admissions := if taken then 1 else 0;
      }
    }
  }

  /** The issuer's own Control tokens: what admits an exchange through a prefix. */
  function Admissions(p: Permission, issuer: nat, generation: nat): seq<Token> {
    Held(p.stock, Challenge(issuer, generation, 1))
  }

  /** The flight is through the prefix that is open, for a pending batch of the same prefix. */
  predicate Presentable(p: Permission, prefix: Option<nat>, flight: Flight) {
    && flight.batch.prefix.Some? && prefix == flight.batch.prefix
    && p.pending.Some? && p.pending.value.prefix == flight.batch.prefix
  }

  predicate Asks(passage: Passage) {
    passage.asked && passage.authorized
  }

  /** The batch goes through a prefix: the pending one if it was made so, a new one if a prefix is open. */
  predicate Prefixed(p: Permission, prefix: Option<nat>) {
    if p.pending.Some? then p.pending.value.prefix.Some? else prefix.Some?
  }

  /** What is reserved once an exchange has started: a new batch is added, a resumed one is not. */
  function ReservedFor(p: Permission, flight: Option<Flight>, prefix: Option<nat>, receivers: seq<nat>, tokenClass: nat,
                       refill: bool, world: World): seq<nat>
    requires 1 <= tokenClass <= 3
  {
    if Startable(p, flight, prefix, receivers, tokenClass, refill, world) && p.pending.None?
    then p.reserved[tokenClass - 1 := p.reserved[tokenClass - 1] + |receivers|] else p.reserved
  }

  /** The admissions an exchange takes out of stock. */
  function Cost(p: Permission, flight: Option<Flight>, prefix: Option<nat>, receivers: seq<nat>, tokenClass: nat, refill: bool,
                attempt: Attempt, issuer: nat, generation: nat): nat
    requires 1 <= tokenClass <= 3
  {
    if && Startable(p, flight, prefix, receivers, tokenClass, refill, attempt.world) && Prefixed(p, prefix)
       && Asks(attempt.passage) && Admissions(p, issuer, generation) != []
    then 1 else 0
  }

  /** The exchange makes its tokens: through a prefix, only if it was admitted. */
  predicate Makes(p: Permission, flight: Option<Flight>, prefix: Option<nat>, receivers: seq<nat>, tokenClass: nat, refill: bool,
                  attempt: Attempt, issuer: nat, generation: nat)
    requires 1 <= tokenClass <= 3
  {
    && Startable(p, flight, prefix, receivers, tokenClass, refill, attempt.world) && attempt.outcome.Tokens?
    && (Prefixed(p, prefix) ==>
          Asks(attempt.passage) && Admissions(p, issuer, generation) != [] && attempt.passage.marked)
  }

  /** An exchange that was not admitted brings nothing back. */
  function WithoutResult(outcome: Outcome): Outcome {
    if outcome.Unusable? || outcome.Tokens? then Failed else outcome
  }

  lemma SameGrown(p: Permission, a: Account, issuer: nat)
    requires Sound(p, a, issuer)
    ensures Grown(p, p, 0)
  {
  }

  lemma GrownTwice(p: Permission, m: Permission, n: Permission, i: nat, j: nat)
    requires Grown(p, m, i) && Grown(m, n, j)
    ensures Grown(p, n, i + j)
  {
    hide StockOf;
    forall k: nat ensures StockOf(p.stock, k) <= StockOf(n.stock, k) + if k == 0 then i + j else 0 {
      assert StockOf(p.stock, k) <= StockOf(m.stock, k) + if k == 0 then i else 0;
    }
  }

  lemma CostNeedsPrefix(p: Permission, flight: Option<Flight>, prefix: Option<nat>, receivers: seq<nat>, tokenClass: nat,
                        refill: bool, attempt: Attempt, issuer: nat, generation: nat)
    requires 1 <= tokenClass <= 3
    ensures prefix.None? ==> Cost(p, flight, prefix, receivers, tokenClass, refill, attempt, issuer, generation) == 0
  {
    hide Challenges, Known, Held;
  }

  lemma PreparedGrows(p: Permission, m: Permission, prefix: Option<nat>, requested: seq<nat>, tokenClass: nat, refill: bool,
                      inner: Attempt, issuer: nat, generation: nat)
    requires 1 <= tokenClass <= 3
    requires if prefix.None? || refill then m == p && Grown(p, p, 0)
             else Prepared(p, m, prefix, requested, tokenClass, inner, issuer, generation)
    ensures StockOf(p.stock, tokenClass - 1) <= StockOf(m.stock, tokenClass - 1)
  {
    hide StockOf;
  }

  /** The preparation with the last admission, and the exchange that follows it. */
  lemma LastIsReplenished(p: Permission, m: Permission, n: Permission, prefix: Option<nat>, flight: Option<Flight>,
                          receivers: seq<nat>, tokenClass: nat, outer: Attempt, inner: Attempt, issuer: nat, generation: nat,
                          admitted: nat)
    requires prefix.Some? && 1 <= tokenClass <= 3 && outer.outcome.Tokens?
    requires admitted == Cost(m, flight, prefix, receivers, tokenClass, false, outer, issuer, generation)
    requires LastAdmission(p, receivers, tokenClass, issuer, generation)
    requires Prepared(p, m, prefix, receivers, tokenClass, inner, issuer, generation)
    requires Makes(m, flight, prefix, receivers, tokenClass, false, outer, issuer, generation)
    requires n.reserved == ReservedFor(m, flight, prefix, receivers, tokenClass, false, outer.world)
    requires Admissions(n, issuer, generation)
             == Admissions(m, issuer, generation)[admitted..]
                + MadeFor(Challenges(receivers, tokenClass, outer.world.nodes), Minted(outer.outcome.mint, |receivers|),
                          Challenge(issuer, generation, 1))
    ensures Replenished(p, n, receivers, tokenClass, inner, issuer, generation)
  {
    hide Startable, StockOf, Held, DutyOf, MadeFor;
    if tokenClass == 1 {
      var r :| r in receivers && r != issuer;
    } else {
      MadeForNone(Challenges(receivers, tokenClass, outer.world.nodes), Minted(outer.outcome.mint, |receivers|),
                  Challenge(issuer, generation, 1));
    }
  }

  function ReceiversOf(b: Batch): (receivers: seq<nat>)
    ensures |receivers| == |b.challenges|
  {
    seq(|b.challenges|, i requires 0 <= i < |b.challenges| => b.challenges[i].receiver)
  }

  /** The preparation succeeds: all is available, and the refill, the pending one or a new one, if any, makes its tokens. */
  predicate Prepares(p: Permission, flight: Option<Flight>, prefix: Option<nat>, requested: seq<nat>, tokenClass: nat,
                     inner: Attempt, issuer: nat, generation: nat) {
    && inner.world.ready
    && if p.pending.Some?
       then p.pending.value.refill ==>
              Makes(p, flight, prefix, ReceiversOf(p.pending.value), 1, true, inner, issuer, generation)
       else Refills(p, prefix, requested, tokenClass, issuer, generation) ==>
              Makes(p, flight, prefix, seq(RefillCount(p), _ => issuer), 1, true, inner, issuer, generation)
  }

  /** What a preparation leaves: the refill it made, if it made one. */
  ghost predicate Prepared(p: Permission, n: Permission, prefix: Option<nat>, requested: seq<nat>, tokenClass: nat,
                           inner: Attempt, issuer: nat, generation: nat) {
    && Grown(p, n, 0) && (n.pending.Some? ==> !n.pending.value.refill)
    && (Refills(p, prefix, requested, tokenClass, issuer, generation) ==>
          && n.pending.None? && n.reserved == p.reserved[0 := p.reserved[0] + RefillCount(p)]
          && StockOf(n.stock, 0) + (if prefix.Some? then 1 else 0) == StockOf(p.stock, 0) + RefillCount(p)
          && StockOf(n.stock, 0) > StockOf(p.stock, 0)
          && (DutyOf(inner.world.nodes, issuer) == generation ==>
                |Admissions(n, issuer, generation)|
                == (if prefix.Some? then 0 else |Admissions(p, issuer, generation)|) + RefillCount(p)))
    && (!(p.pending.Some? && p.pending.value.refill) && !Refills(p, prefix, requested, tokenClass, issuer, generation) ==>
          n == p)
  }

  /** One admission is left, nothing is pending, the work is not all for the issuer, and two allocations or more remain. */
  predicate LastAdmission(p: Permission, requested: seq<nat>, tokenClass: nat, issuer: nat, generation: nat) {
    && p.pending.None? && |p.maxima| == |p.reserved| == 3 && p.reserved[0] + 2 <= p.maxima[0]
    && |Admissions(p, issuer, generation)| == 1
    && (tokenClass != 1 || exists r <- requested :: r != issuer)
  }

  /** The Control allocation was drawn on by what remained of it, up to 32, and that many admissions less one are left. */
  predicate Replenished(p: Permission, n: Permission, requested: seq<nat>, tokenClass: nat, inner: Attempt, issuer: nat,
                        generation: nat)
    requires |p.maxima| == |p.reserved| == 3 && p.reserved[0] <= p.maxima[0]
  {
    var count := if p.maxima[0] - p.reserved[0] < 32 then p.maxima[0] - p.reserved[0] else 32;
    && |n.reserved| == 3 && n.reserved[0] == p.reserved[0] + count + (if tokenClass == 1 then |requested| else 0)
    && (DutyOf(inner.world.nodes, issuer) == generation ==>
          && |Admissions(n, issuer, generation)| >= count - 1
          && (tokenClass != 1 ==> |Admissions(n, issuer, generation)| == count - 1))
  }

  /** What a refill does: it makes all its tokens, pays for one through a prefix, and leaves no stock smaller. */
  ghost predicate Refilled(p: Permission, n: Permission, prefix: Option<nat>, count: nat, attempt: Attempt, issuer: nat,
                           generation: nat, admissions: nat) {
    && Grown(p, n, 0) && StockOf(n.stock, 0) + admissions == StockOf(p.stock, 0) + count
    && (p.pending.None? ==>
          && admissions == (if prefix.Some? then 1 else 0)
          && |p.reserved| == 3 && n.reserved == p.reserved[0 := p.reserved[0] + count])
    && (DutyOf(attempt.world.nodes, issuer) == generation ==>
          |Admissions(n, issuer, generation)| + admissions == |Admissions(p, issuer, generation)| + count)
  }

  /** A refill makes at least the token it cost. */
  lemma GainsOnSuccess(p: Permission, n: Permission, admissions: nat, count: nat)
    requires Grown(p, n, admissions) && StockOf(n.stock, 0) + admissions == StockOf(p.stock, 0) + count
    requires admissions <= 1 <= count
    ensures Grown(p, n, 0)
  {
    hide StockOf;
  }

  /** All tokens of a refill are for the issuer, at its duty of the day. */
  lemma OwnTokens(receivers: seq<nat>, nodes: seq<Node>, issuer: nat, generation: nat, mint: nat -> Token)
    requires forall r <- receivers :: r == issuer
    ensures DutyOf(nodes, issuer) == generation ==>
              |MadeFor(Challenges(receivers, 1, nodes), Minted(mint, |receivers|), Challenge(issuer, generation, 1))|
              == |receivers|
  {
    hide DutyOf;
    if DutyOf(nodes, issuer) == generation {
      var c := Challenge(issuer, generation, 1);
      forall i | 0 <= i < |receivers| ensures Challenges(receivers, 1, nodes)[i] == c { assert receivers[i] in receivers; }
      MadeForOne(Challenges(receivers, 1, nodes), Minted(mint, |receivers|), c);
    }
  }

  lemma {:induction false} MadeForOne(challenges: seq<Challenge>, tokens: seq<Token>, c: Challenge)
    requires |challenges| == |tokens| && forall i :: 0 <= i < |challenges| ==> challenges[i] == c
    ensures MadeFor(challenges, tokens, c) == tokens
  {
    if challenges != [] {
      var last := |challenges| - 1;
      MadeForOne(challenges[..last], tokens[..last], c);
      assert tokens == tokens[..last] + [tokens[last]];
    }
  }

  lemma {:induction false} MadeForNone(challenges: seq<Challenge>, tokens: seq<Token>, c: Challenge)
    requires |challenges| == |tokens| && forall i :: 0 <= i < |challenges| ==> challenges[i] != c
    ensures MadeFor(challenges, tokens, c) == []
  {
    if challenges != [] {
      var last := |challenges| - 1;
      MadeForNone(challenges[..last], tokens[..last], c);
    }
  }

  /** The refill takes what is left of the Control allocation, up to one batch. */
  function RefillCount(p: Permission): nat
    requires |p.maxima| == |p.reserved| == 3
  {
    var remaining := if p.reserved[0] <= p.maxima[0] then p.maxima[0] - p.reserved[0] else 0;
    if remaining < MAXIMUM_BATCH then remaining else MAXIMUM_BATCH
  }

  /**
   The work at hand is not for the issuer itself, fewer than two admissions are in stock, and there is room: with a
   prefix the last admission pays for at least two more, without one whatever is left is taken.
   */
  predicate Refills(p: Permission, prefix: Option<nat>, requested: seq<nat>, tokenClass: nat, issuer: nat, generation: nat)
  {
    && p.pending.None? && |p.maxima| == |p.reserved| == 3
    && !(tokenClass == 1 && requested != [] && forall r <- requested :: r == issuer)
    && var ready := |Admissions(p, issuer, generation)|;
    && ready < 2 && RefillCount(p) > 0 && (prefix.Some? ==> ready > 0 && RefillCount(p) > 1)
  }

  /** Allocations are never given back, batches never uncounted, and no token disappears but the issuer's admissions. */
  ghost predicate Grown(p: Permission, n: Permission, admissions: nat) {
    && |p.reserved| == |n.reserved| == 3 && n.maxima == p.maxima
    && p.reserved[0] <= n.reserved[0] && p.reserved[1] <= n.reserved[1] && p.reserved[2] <= n.reserved[2]
    && p.batches <= n.batches
    && forall k: nat :: StockOf(p.stock, k) <= StockOf(n.stock, k) + if k == 0 then admissions else 0
  }

  lemma RefillIsOwn(p: Permission, a: Account, issuer: nat)
    requires Sound(p, a, issuer) && p.pending.Some? && p.pending.value.refill
    ensures forall i :: 0 <= i < |p.pending.value.challenges| ==>
              p.pending.value.challenges[i].tokenClass == 1 && p.pending.value.challenges[i].receiver == issuer
    ensures 0 < |p.pending.value.challenges| <= MAXIMUM_BATCH && forall r <- ReceiversOf(p.pending.value) :: r == issuer
  {
    var b := p.pending.value;
    forall i | 0 <= i < |b.challenges| ensures b.challenges[i].tokenClass == 1 && b.challenges[i].receiver == issuer {
      assert b.challenges[i] in b.challenges;
    }
  }

  lemma {:induction false} HeldGrows(stock: seq<Stock>, i: nat, c: Challenge)
    requires Distinct(stock) && i < |stock|
    ensures |Held(stock[..i + 1], c)| == |Held(stock[..i], c)| + if stock[i].challenge == c then |stock[i].tokens| else 0
  {
    var s := stock[..i + 1];
    assert s == stock[..i] + [stock[i]];
    if stock[i].challenge == c {
      HeldAt(s, i);
      HeldAbsent(stock[..i], c);
    } else {
      HeldAppended(stock[..i], stock[i].challenge, stock[i].tokens, c);
    }
  }

  lemma {:induction false} HeldEmpty(stock: seq<Stock>, c: Challenge)
    requires forall i :: 0 <= i < |stock| ==> stock[i].challenge == c ==> stock[i].tokens == []
    ensures Held(stock, c) == []
  {
    if stock != [] { HeldEmpty(stock[1..], c); }
  }

  function SpentOne(spent: seq<nat>, c: Challenge): seq<nat>
    requires |spent| == 3
  {
    if 1 <= c.tokenClass <= 3 then spent[c.tokenClass - 1 := spent[c.tokenClass - 1] + 1] else spent
  }

  lemma SpendIsSound(p: Permission, a: Account, issuer: nat, i: nat)
    requires Sound(p, a, issuer) && i < |p.stock| && p.stock[i].tokens != []
    ensures Sound(p.(stock := p.stock[i := p.stock[i].(tokens := p.stock[i].tokens[1..])]),
                  a.(spent := SpentOne(a.spent, p.stock[i].challenge)), issuer)
  {
    Replaced(p.stock, i, p.stock[i].tokens[1..]);
  }

  /** The allocation of the batch is lost with it: a discarded cancellation, or a result that cannot be used. */
  predicate Burns(outcome: Outcome) {
    outcome.Unusable? || (outcome.Cancelled? && outcome.discard)
  }

  predicate Startable(p: Permission, flight: Option<Flight>, prefix: Option<nat>, receivers: seq<nat>, tokenClass: nat,
                      refill: bool, world: World)
    requires 1 <= tokenClass <= 3
  {
    && |p.maxima| == |p.reserved| == 3 && world.ready && flight.None?
    && (forall r <- receivers :: Known(world.nodes, r))
    && if p.pending.Some?
       then Resumes(p.pending.value, prefix, Challenges(receivers, tokenClass, world.nodes), refill, world.selection)
       else HasRoom(p, prefix, |receivers|, tokenClass) && world.prepares
  }

  // ---------- every interleaving of the critical sections ----------

  datatype Step =
    | Begin(receivers: seq<nat>, tokenClass: nat, refill: bool, world: World)
    | End(outcome: Outcome)
    | Show(passage: Passage)
    | Take(challenge: Challenge)
    | Open(prefix: Option<nat>)
    | Grant(maxima: seq<nat>)

  predicate Performable(s: Step, issuer: nat) {
    match s
    case Begin(receivers, tokenClass, refill, _) =>
      && 1 <= tokenClass <= 3 && 0 < |receivers| <= MAXIMUM_BATCH
      && (refill ==> tokenClass == 1 && forall r <- receivers :: r == issuer)
    case Grant(maxima) => |maxima| == 3 && maxima[0] < UINT32_LIMIT && maxima[1] < UINT32_LIMIT && maxima[2] < UINT32_LIMIT
    case _ => true
  }

  /**
   Any order of sections of any calls, with tokens taken, prefixes and permissions changed in between. Under the
   present permission, per class: what was ever finished, burned or is pending adds up to what is reserved, which is
   within the maximum; and at most two batches were made without a prefix.
   */
  method Run(issuer: nat, issuerGeneration: nat, maxima: seq<nat>, steps: seq<Step>) returns (owner: Owner)
    requires |maxima| == 3 && maxima[0] < UINT32_LIMIT && maxima[1] < UINT32_LIMIT && maxima[2] < UINT32_LIMIT
    ensures fresh(owner) && owner.Valid() && owner.permission.batches <= BOOTSTRAP
    ensures |owner.permission.reserved| == |owner.permission.maxima| == |owner.account.finished| == |owner.account.burned| == 3
    ensures forall k :: 0 <= k < 3 ==>
              owner.account.finished[k] + owner.account.burned[k] + PendingOf(owner.permission, k)
              == owner.permission.reserved[k] <= owner.permission.maxima[k]
  {
    owner := new Owner(issuer, issuerGeneration, maxima);
    for i := 0 to |steps|
      invariant fresh(owner) && owner.Valid() && owner.issuer == issuer
    {
      hide Sound;
      if Performable(steps[i], issuer) {
        match steps[i] {
          case Begin(receivers, tokenClass, refill, world) =>
            var _ := owner.Reserve(receivers, tokenClass, refill, world);
          case End(outcome) =>
            if owner.flight.Some? { var _ := owner.Conclude(outcome); }
          case Show(passage) =>
            if owner.flight.Some? { var _, _ := owner.Present(passage); }
          case Take(challenge) =>
            var _ := owner.Spend(challenge);
          case Open(prefix) =>
            owner.Reopen(prefix);
          case Grant(next) =>
            owner.Renew(next);
        }
      }
    }
    ghost var p, a := owner.permission, owner.account;
    forall k | 0 <= k < 3 ensures a.finished[k] + a.burned[k] + PendingOf(p, k) == p.reserved[k] <= p.maxima[k] {
      assert Balanced(p, a, k);
    }
  }

  /** A bootstrap exchange for the issuer itself leaves one admission; then a prefix is opened. */
  method LastAdmissionRun(maxima: seq<nat>, world: World, mint: nat -> Token) returns (owner: Owner)
    requires |maxima| == 3 && maxima[0] < UINT32_LIMIT && maxima[1] < UINT32_LIMIT && maxima[2] < UINT32_LIMIT
    requires maxima[0] > 0 && world.ready && world.prepares && Known(world.nodes, 1) && DutyOf(world.nodes, 1) == 1
    ensures fresh(owner) && owner.Valid() && owner.issuer == owner.issuerGeneration == 1
    ensures owner.prefix == Some(0) && owner.flight.None? && owner.permission.pending.None?
    ensures owner.permission.maxima == maxima && owner.permission.reserved == [1, 0, 0]
    ensures |Admissions(owner.permission, 1, 1)| == 1 && StockOf(owner.permission.stock, 0) == 1
  {
    hide Sound, StockOf, Held, MadeFor, Known, DutyOf;
    owner := new Owner(1, 1, maxima);
    NoStock();
    var made, cost := owner.Exchange([1], 1, false, Attempt(world, Passage(false, false, false), Tokens(mint)));
    OwnTokens([1], world.nodes, 1, 1, mint);
    owner.Reopen(Some(0));
  }

  /** One exchange through a prefix that is admitted and then fails: no token was made and the last one is gone. */
  method CostlyRun() returns (owner: Owner, held: nat, ok: bool)
    ensures fresh(owner) && owner.Valid() && held == 1 && !ok && StockOf(owner.permission.stock, 0) == 0
  {
    hide Sound, StockOf, Held, MadeFor, Known, DutyOf;
    var world := World(true, 0, [Node(1, 1)], true);
    OneNode();
    owner := LastAdmissionRun([2, 0, 0], world, (i: nat) => i);
    held := StockOf(owner.permission.stock, 0);
    ghost var cost;
    ok, cost := owner.Exchange([1], 1, false, Attempt(world, Passage(true, true, true), Failed));
  }

  /**
   Work for another receiver with the last admission in stock: 32 more are made first, and 31 are left once the work is
   done.
   */
  method ReplenishedRun() returns (owner: Owner, ok: bool)
    ensures fresh(owner) && owner.Valid() && ok
    ensures owner.permission.reserved == [33, 1, 0] && |Admissions(owner.permission, 1, 1)| == 31
    ensures StockOf(owner.permission.stock, 1) >= 1
  {
    hide Sound, StockOf, Held, MadeFor, Known, DutyOf, Prepares, Prepared, Makes, ReservedFor;
    var world, mint := World(true, 0, [Node(1, 1), Node(7, 1)], true), (i: nat) => i;
    TwoNodes();
    owner := LastAdmissionRun([40, 10, 0], world, mint);
    var attempt := Attempt(world, Passage(true, true, true), Tokens(mint));
    SamplePrepares(owner.permission, attempt);
    ghost var p, between, cost := owner.permission, None, 0;
    ok, cost, between := owner.Issue([7], 2, false, attempt, attempt);
    SampleMakes(p, between.value, attempt);
  }

  lemma SamplePrepares(p: Permission, attempt: Attempt)
    requires p.maxima == [40, 10, 0] && p.reserved == [1, 0, 0] && p.pending.None? && |Admissions(p, 1, 1)| == 1
    requires attempt.world.ready && attempt.world.prepares && Known(attempt.world.nodes, 1) && attempt.outcome.Tokens?
    requires attempt.passage == Passage(true, true, true)
    ensures Prepares(p, None, Some(0), [7], 2, attempt, 1, 1)
  {
    hide Held, Known;
  }

  lemma SampleMakes(p: Permission, m: Permission, attempt: Attempt)
    requires p.maxima == [40, 10, 0] && p.reserved == [1, 0, 0] && p.pending.None? && |Admissions(p, 1, 1)| == 1
    requires Prepared(p, m, Some(0), [7], 2, attempt, 1, 1)
    requires attempt.world.ready && attempt.world.prepares && attempt.outcome.Tokens?
    requires Known(attempt.world.nodes, 7) && DutyOf(attempt.world.nodes, 1) == 1
    requires attempt.passage == Passage(true, true, true)
    ensures Makes(m, None, Some(0), [7], 2, false, attempt, 1, 1)
    ensures ReservedFor(m, None, Some(0), [7], 2, false, attempt.world) == [33, 1, 0]
  {
    hide Held, Known, DutyOf, StockOf;
  }

  lemma TwoNodes()
    ensures Known([Node(1, 1), Node(7, 1)], 1) && DutyOf([Node(1, 1), Node(7, 1)], 1) == 1
    ensures Known([Node(1, 1), Node(7, 1)], 7)
  {
    var nodes := [Node(1, 1), Node(7, 1)];
    assert nodes[..1] == [Node(1, 1)];
    assert Generations([Node(1, 1)], 1) == [1] && Generations([Node(1, 1)], 7) == [];
    assert Generations(nodes, 1) == [1] && Generations(nodes, 7) == [1];
  }

  lemma NoStock()
    ensures StockOf([], 0) == 0 && forall c :: Held([], c) == []
  {
  }

  lemma OneNode()
    ensures Known([Node(1, 1)], 1) && DutyOf([Node(1, 1)], 1) == 1
  {
    assert Generations([Node(1, 1)], 1) == [1];
  }
}
