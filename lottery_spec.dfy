/** The lottery contract as a state machine over values: its storage, the
    three entry points as transition functions, the storage invariant and the
    contract balance, and what any sequence of calls preserves. The class in
    module LotteryContract is proved against these functions. */
module LotterySpec {
  import opened Tezos

  /** The ticket price fixed at origination: 1 tez. */
  const TICKET_COST: nat := 1 * MUTEZ_PER_TEZ
  /** Tickets per round fixed at origination. */
  const MAX_TICKETS: nat := 5

  /** The contract storage: `players` maps a ticket index to its buyer. */
  datatype Storage = Storage(
    players: map<nat, Address>,
    ticketCost: nat,
    ticketsAvailable: nat,
    maxTickets: nat,
    operator: Address)

  /** What a successful entry point leaves: the new storage and the transfers
      it emitted. */
  datatype Effect = Effect(storage: Storage, ops: seq<Operation>)

  /** The fields no entry point writes. */
  predicate SameConfig(s: Storage, t: Storage)
  {
    s.ticketCost == t.ticketCost && s.maxTickets == t.maxTickets && s.operator == t.operator
  }

  /** The storage invariant: tickets sold this round sit under keys
      0 .. |players|-1, and sold plus available tickets make up a round of a
      positive number of tickets. */
  ghost predicate Valid(s: Storage)
  {
    && s.maxTickets > 0
    && (forall k: nat :: k in s.players <==> k < |s.players|)
    && |s.players| + s.ticketsAvailable == s.maxTickets
  }

  /** The storage at origination. */
  function Initial(operator: Address): (s: Storage)
    ensures Valid(s)
    ensures s.players == map[] && s.ticketsAvailable == s.maxTickets
    ensures s.operator == operator
  {
    Storage(map[], TICKET_COST, MAX_TICKETS, MAX_TICKETS, operator)
  }

  /** The buyers of this round in the order their tickets were sold. */
  ghost function Entrants(s: Storage): seq<Address>
    requires Valid(s)
  {
    seq(|s.players|, i requires 0 <= i < |s.players| => s.players[i])
  }

  /** Entry point `buy_ticket`: sells the next ticket to the sender and
      refunds what was paid above the ticket price. */
  function BuyTicket(s: Storage, call: Call): (r: Result<Effect>)
    ensures s.ticketsAvailable == 0 ==> r == Err(FailWith("NO TICKETS AVAILABLE"))
    ensures s.ticketsAvailable > 0 && call.amount < s.ticketCost ==> r == Err(FailWith("INVALID AMOUNT"))
    ensures r.Ok? <==> s.ticketsAvailable > 0 && call.amount >= s.ticketCost
    ensures r.Ok? ==>
              && UpdatedAt(r.value.storage.players, s.players, |s.players|, call.sender)
              && r.value.storage.ticketsAvailable + 1 == s.ticketsAvailable
              && SameConfig(s, r.value.storage)
    ensures r.Ok? && call.amount > s.ticketCost ==>
              r.value.ops == [Transfer(call.sender, call.amount - s.ticketCost)]
    ensures r.Ok? && call.amount == s.ticketCost ==> r.value.ops == []
    ensures r.Ok? ==> Total(r.value.ops) + s.ticketCost == call.amount
  {
    if s.ticketsAvailable == 0 then Err(FailWith("NO TICKETS AVAILABLE"))
    else if call.amount < s.ticketCost then Err(FailWith("INVALID AMOUNT"))
    else
      var storage := s.(players := s.players[|s.players| := call.sender],
                        ticketsAvailable := s.ticketsAvailable - 1);
      var extraBalance := call.amount - s.ticketCost;
      var ops := if extraBalance > 0 then [Transfer(call.sender, extraBalance)] else [];
      Ok(Effect(storage, ops))
  }

  /** Entry point `end_game`: the operator draws ticket
      `randomNumber % maxTickets` of a sold-out round, pays its buyer the whole
      balance (`balance` before the call plus the amount sent with it) and
      opens the next round. */
  function EndGame(s: Storage, balance: nat, call: Call, randomNumber: nat): (r: Result<Effect>)
    ensures call.sender != s.operator ==> r == Err(FailWith("NOT_AUTHORISED"))
    ensures call.sender == s.operator && s.ticketsAvailable != 0 ==> r == Err(FailWith("GAME IS YET TO END"))
    ensures Valid(s) ==> (r.Ok? <==> call.sender == s.operator && s.ticketsAvailable == 0)
    ensures r.Ok? ==>
              && call.sender == s.operator && s.ticketsAvailable == 0
              && s.maxTickets > 0 && randomNumber % s.maxTickets in s.players
              && r.value.ops == [Transfer(s.players[randomNumber % s.maxTickets], balance + call.amount)]
              && Total(r.value.ops) == balance + call.amount
    ensures r.Ok? ==>
              && r.value.storage.players == map[]
              && r.value.storage.ticketsAvailable == s.maxTickets
              && SameConfig(s, r.value.storage)
  {
    if call.sender != s.operator then Err(FailWith("NOT_AUTHORISED"))
    else if s.ticketsAvailable != 0 then Err(FailWith("GAME IS YET TO END"))
    else if s.maxTickets == 0 then Err(DivisionByZero)
    else
      var winnerId := randomNumber % s.maxTickets;
      if winnerId !in s.players then Err(KeyNotFound)
      else
        var winnerAddress := s.players[winnerId];
        var storage := s.(players := map[], ticketsAvailable := s.maxTickets);
        Ok(Effect(storage, [Transfer(winnerAddress, balance + call.amount)]))
  }

  /** Entry point `default`: every plain transfer to the contract is refused. */
  function Default(s: Storage, call: Call): (r: Result<Effect>)
    ensures r == Err(FailWith("NOT ALLOWED"))
  {
    Err(FailWith("NOT ALLOWED"))
  }

  /** Under the invariant a sold-out round can always be settled by the
      operator: the draw lands on a sold ticket, whose buyer receives the
      whole pool. */
  lemma EndGameTotal(s: Storage, balance: nat, call: Call, randomNumber: nat)
    requires Valid(s) && s.ticketsAvailable == 0 && call.sender == s.operator
    ensures EndGame(s, balance, call, randomNumber).Ok?
    ensures EndGame(s, balance, call, randomNumber).value.ops
            == [Transfer(Entrants(s)[randomNumber % s.maxTickets], balance + call.amount)]
  {
  }

  /** A sold ticket keeps the storage invariant: it goes under the first
      free key, which is the next index. */
  lemma BuyTicketKeepsValid(s: Storage, call: Call)
    requires Valid(s) && BuyTicket(s, call).Ok?
    ensures Valid(BuyTicket(s, call).value.storage)
    ensures |BuyTicket(s, call).value.storage.players| == |s.players| + 1
  {
    var t := BuyTicket(s, call).value.storage;
    assert |s.players| !in s.players;
    assert t.players.Keys == s.players.Keys + {|s.players|};
    assert |t.players| == |s.players| + 1;
  }

  /** A sold ticket is appended to the end of this round's buyers, so ticket
      order is call-acceptance order. */
  lemma BuyTicketAppends(s: Storage, call: Call)
    requires Valid(s) && BuyTicket(s, call).Ok?
    ensures Valid(BuyTicket(s, call).value.storage)
    ensures Entrants(BuyTicket(s, call).value.storage) == Entrants(s) + [call.sender]
  {
    BuyTicketKeepsValid(s, call);
  }

  // ---------------------------------------------------------------------
  // The contract on the chain: storage, balance and sequences of calls.

  /** The contract as the chain holds it: storage and balance in mutez. */
  datatype Chain = Chain(storage: Storage, balance: nat)

  /** An invocation of one entry point. */
  datatype Request =
    | BuyTicketRequest(call: Call)
    | EndGameRequest(call: Call, randomNumber: nat)
    | DefaultRequest(call: Call)

  /** The entry point a request names, run against the chain state. */
  function Dispatch(c: Chain, req: Request): Result<Effect>
  {
    match req
    case BuyTicketRequest(call) => BuyTicket(c.storage, call)
    case EndGameRequest(call, randomNumber) => EndGame(c.storage, c.balance, call, randomNumber)
    case DefaultRequest(call) => Default(c.storage, call)
  }

  /** The chain after one request: a failed call changes nothing and its
      amount goes back to the sender; a successful one commits its storage,
      keeps the amount it was sent and pays out the transfers it emitted. */
  function Apply(c: Chain, req: Request): (d: Chain)
    ensures Dispatch(c, req).Err? ==> d == c
    ensures Dispatch(c, req).Ok? ==>
              d.storage == Dispatch(c, req).value.storage
              && d.balance + Total(Dispatch(c, req).value.ops) == c.balance + req.call.amount
  {
    match Dispatch(c, req)
    case Err(_) => c
    case Ok(e) => Chain(e.storage, c.balance + req.call.amount - Total(e.ops))
  }

  /** The chain after a sequence of requests, in order. */
  function Run(c: Chain, reqs: seq<Request>): Chain
    decreases |reqs|
  {
    if reqs == [] then c else Run(Apply(c, reqs[0]), reqs[1..])
  }

  /** The chain invariant: the storage invariant, and the balance is exactly
      the price of the tickets sold this round. */
  ghost predicate ChainValid(c: Chain)
  {
    Valid(c.storage) && c.balance == |c.storage.players| * c.storage.ticketCost
  }

  /** The contract after origination with no balance. */
  function Originate(operator: Address): (c: Chain)
    ensures ChainValid(c)
  {
    Chain(Initial(operator), 0)
  }

  /** A successful `buy_ticket` keeps exactly the ticket price. */
  lemma BuyTicketRetainsCost(c: Chain, call: Call)
    requires BuyTicket(c.storage, call).Ok?
    ensures Apply(c, BuyTicketRequest(call)).balance == c.balance + c.storage.ticketCost
  {
  }

  /** A successful `end_game` leaves the contract empty. */
  lemma EndGameEmptiesBalance(c: Chain, call: Call, randomNumber: nat)
    requires EndGame(c.storage, c.balance, call, randomNumber).Ok?
    ensures Apply(c, EndGameRequest(call, randomNumber)).balance == 0
  {
  }

  /** A purchase keeps the chain invariant: one more ticket sold, one more
      ticket price kept. */
  lemma BuyTicketPreservesValid(c: Chain, call: Call)
    requires ChainValid(c)
    ensures ChainValid(Apply(c, BuyTicketRequest(call)))
  {
    if BuyTicket(c.storage, call).Ok? {
      BuyTicketKeepsValid(c.storage, call);
      BuyTicketRetainsCost(c, call);
      var n, cost := |c.storage.players|, c.storage.ticketCost;
      assert (n + 1) * cost == n * cost + cost;
    }
  }

  /** Every request keeps the chain invariant and the operator. */
  lemma ApplyPreservesValid(c: Chain, req: Request)
    requires ChainValid(c)
    ensures ChainValid(Apply(c, req))
    ensures Apply(c, req).storage.operator == c.storage.operator
  {
    match req
    case BuyTicketRequest(call) =>
      BuyTicketPreservesValid(c, call);
    case EndGameRequest(call, randomNumber) =>
    case DefaultRequest(call) =>
  }

  /** Any sequence of requests keeps the chain invariant. */
  lemma {:induction false} RunPreservesValid(c: Chain, reqs: seq<Request>)
    requires ChainValid(c)
    ensures ChainValid(Run(c, reqs))
    decreases |reqs|
  {
    if reqs != [] {
      ApplyPreservesValid(c, reqs[0]);
      RunPreservesValid(Apply(c, reqs[0]), reqs[1..]);
    }
  }

  /** From origination, whatever is called: the players map is keyed by
      0 .. |players|-1, sold plus available tickets make five, the balance is
      the price of the sold tickets, and a sold-out round can always be
      settled by the operator, paying the drawn buyer the whole pool. */
  lemma Reachable(operator: Address, reqs: seq<Request>, randomNumber: nat)
    ensures ChainValid(Run(Originate(operator), reqs))
    ensures var c := Run(Originate(operator), reqs);
            c.storage.ticketsAvailable == 0 ==>
              var call := Call(operator, 0);
              && c.storage.operator == operator
              && EndGame(c.storage, c.balance, call, randomNumber).Ok?
              && Total(EndGame(c.storage, c.balance, call, randomNumber).value.ops)
                 == MAX_TICKETS * TICKET_COST
  {
    RunPreservesValid(Originate(operator), reqs);
    RunKeepsConfig(Originate(operator), reqs);
  }

  /** No sequence of requests changes the configuration. */
  lemma {:induction false} RunKeepsConfig(c: Chain, reqs: seq<Request>)
    ensures SameConfig(c.storage, Run(c, reqs).storage)
    decreases |reqs|
  {
    if reqs != [] {
      var d := Apply(c, reqs[0]);
      assert SameConfig(c.storage, d.storage);
      RunKeepsConfig(d, reqs[1..]);
    }
  }
}
