/** The lottery contract as an object: its storage fields and balance are
    updated in place by the entry points, each proved to do what the
    corresponding transition of module LotterySpec does. */
module LotteryContract {
  import opened Tezos
  import LotterySpec

  class Lottery {
    var players: map<nat, Address>
    var ticketCost: nat
    var ticketsAvailable: nat
    var maxTickets: nat
    var operator: Address
    /** The contract balance in mutez once the transfers emitted by the last
        call have been executed. */
    var balance: nat

    /** The storage fields as a value. */
    function Storage(): LotterySpec.Storage
      reads this
    {
      LotterySpec.Storage(players, ticketCost, ticketsAvailable, maxTickets, operator)
    }

    /** Storage and balance as a value. */
    function Chain(): LotterySpec.Chain
      reads this
    {
      LotterySpec.Chain(Storage(), balance)
    }

    ghost predicate Valid()
      reads this
    {
      LotterySpec.ChainValid(Chain())
    }

    /** Origination: an empty round of five 1-tez tickets and no balance. */
    constructor (operator: Address)
      ensures Chain() == LotterySpec.Originate(operator)
      ensures Valid()
    {
      players := map[];
      ticketCost := LotterySpec.TICKET_COST;
      ticketsAvailable := LotterySpec.MAX_TICKETS;
      maxTickets := LotterySpec.MAX_TICKETS;
      this.operator := operator;
      balance := 0;
    }

    /** Entry point `buy_ticket`, called by `sender` with `amount` mutez.
        Returns the transfers it emits. */
    method BuyTicket(sender: Address, amount: nat) returns (r: Result<seq<Operation>>)
      modifies this
      ensures old(ticketsAvailable) == 0 ==> r == Err(FailWith("NO TICKETS AVAILABLE"))
      ensures old(ticketsAvailable) > 0 && amount < old(ticketCost) ==> r == Err(FailWith("INVALID AMOUNT"))
      ensures r.Ok? <==> old(ticketsAvailable) > 0 && amount >= old(ticketCost)
      ensures r.Err? ==> unchanged(this)
      ensures r.Ok? ==>
                && players == old(players)[old(|players|) := sender]
                && ticketsAvailable == old(ticketsAvailable) - 1
                && balance == old(balance) + old(ticketCost)
                && r.value == (if amount > old(ticketCost) then [Transfer(sender, amount - old(ticketCost))] else [])
                && ticketCost == old(ticketCost) && maxTickets == old(maxTickets) && operator == old(operator)
      ensures match LotterySpec.BuyTicket(old(Storage()), Call(sender, amount))
              case Ok(e) => r == Ok(e.ops) && Storage() == e.storage
              case Err(error) => r == Err(error)
      ensures old(Valid()) ==> Valid()
    {
      if ticketsAvailable <= 0 {
        return Err(FailWith("NO TICKETS AVAILABLE"));
      }
      if amount < ticketCost {
        return Err(FailWith("INVALID AMOUNT"));
      }
      ghost var before := Chain();
      players := players[|players| := sender];
      // `sp.as_nat` cannot fail: the first check keeps the difference >= 0.
      ticketsAvailable := ticketsAvailable - 1;
      balance := balance + amount;
      var extraBalance := amount - ticketCost;
      var ops := [];
      if extraBalance > 0 {
        ops := [Transfer(sender, extraBalance)];
        balance := balance - extraBalance;
      }
      assert LotterySpec.BuyTicket(before.storage, Call(sender, amount)) == Ok(LotterySpec.Effect(Storage(), ops));
      assert Chain() == LotterySpec.Apply(before, LotterySpec.BuyTicketRequest(Call(sender, amount)));
      if LotterySpec.ChainValid(before) {
        LotterySpec.BuyTicketPreservesValid(before, Call(sender, amount));
      }
      return Ok(ops);
    }

    /** Entry point `end_game`, called by `sender` with `amount` mutez and the
        caller-supplied `randomNumber`. Returns the transfers it emits. */
    method EndGame(sender: Address, amount: nat, randomNumber: nat) returns (r: Result<seq<Operation>>)
      modifies this
      ensures sender != old(operator) ==> r == Err(FailWith("NOT_AUTHORISED"))
      ensures sender == old(operator) && old(ticketsAvailable) != 0 ==> r == Err(FailWith("GAME IS YET TO END"))
      ensures r.Err? ==> unchanged(this)
      ensures r.Ok? ==>
                && old(maxTickets) > 0 && randomNumber % old(maxTickets) in old(players)
                && r.value == [Transfer(old(players)[randomNumber % old(maxTickets)], old(balance) + amount)]
                && players == map[] && ticketsAvailable == maxTickets && balance == 0
                && ticketCost == old(ticketCost) && maxTickets == old(maxTickets) && operator == old(operator)
      ensures match LotterySpec.EndGame(old(Storage()), old(balance), Call(sender, amount), randomNumber)
              case Ok(e) => r == Ok(e.ops) && Storage() == e.storage
              case Err(error) => r == Err(error)
      ensures old(Valid()) ==> Valid()
    {
      if sender != operator {
        return Err(FailWith("NOT_AUTHORISED"));
      }
      if ticketsAvailable != 0 {
        return Err(FailWith("GAME IS YET TO END"));
      }
      if maxTickets == 0 {
        return Err(DivisionByZero);
      }
      var winnerId := randomNumber % maxTickets;
      if winnerId !in players {
        return Err(KeyNotFound);
      }
      var winnerAddress := players[winnerId];
      // `sp.balance` includes the amount sent with this call.
      var payout := balance + amount;
      var ops := [Transfer(winnerAddress, payout)];
      balance := 0;
      players := map[];
      ticketsAvailable := maxTickets;
      return Ok(ops);
    }

    /** Entry point `default`: refuses every plain transfer. */
    method Default(sender: Address, amount: nat) returns (r: Result<seq<Operation>>)
      ensures r == Err(FailWith("NOT ALLOWED"))
      ensures r.Err? && LotterySpec.Default(Storage(), Call(sender, amount)) == Err(r.error)
    {
      return Err(FailWith("NOT ALLOWED"));
    }
  }

  /** The first two purchases of the contract's test scenario: alice and
      bob pay 1 and 2 tez for a ticket each and get 0 and 1 tez back. */
  method OpenRound(admin: Address, alice: Address, bob: Address)
    returns (lottery: Lottery, refunds: seq<Result<seq<Operation>>>)
    ensures fresh(lottery)
    ensures lottery.operator == admin && lottery.maxTickets == 5 && lottery.ticketCost == MUTEZ_PER_TEZ
    ensures lottery.ticketsAvailable == 3 && lottery.balance == 2 * MUTEZ_PER_TEZ
    ensures |lottery.players| == 2 && 2 !in lottery.players && 3 !in lottery.players && 4 !in lottery.players
    ensures 1 in lottery.players && lottery.players[1] == bob
    ensures refunds == [Ok([]), Ok([Transfer(bob, 1 * MUTEZ_PER_TEZ)])]
  {
    lottery := new Lottery(admin);
    var r1 := lottery.BuyTicket(alice, 1 * MUTEZ_PER_TEZ);
    assert r1 == Ok([]) && lottery.ticketsAvailable == 4 && |lottery.players| == 1;
    var r2 := lottery.BuyTicket(bob, 2 * MUTEZ_PER_TEZ);
    refunds := [r1, r2];
  }

  /** The next two purchases: john pays 3 tez and gets 2 back, charles pays
      exactly 1 tez and gets nothing back. */
  method FillRound(admin: Address, alice: Address, bob: Address, charles: Address, john: Address)
    returns (lottery: Lottery, refunds: seq<Result<seq<Operation>>>)
    ensures fresh(lottery)
    ensures lottery.operator == admin && lottery.maxTickets == 5 && lottery.ticketCost == MUTEZ_PER_TEZ
    ensures lottery.ticketsAvailable == 1 && lottery.balance == 4 * MUTEZ_PER_TEZ
    ensures |lottery.players| == 4 && 4 !in lottery.players
    ensures 1 in lottery.players && lottery.players[1] == bob
    ensures refunds == [Ok([]), Ok([Transfer(bob, 1 * MUTEZ_PER_TEZ)]),
                        Ok([Transfer(john, 2 * MUTEZ_PER_TEZ)]), Ok([])]
  {
    lottery, refunds := OpenRound(admin, alice, bob);
    var r3 := lottery.BuyTicket(john, 3 * MUTEZ_PER_TEZ);
    assert r3 == Ok([Transfer(john, 2 * MUTEZ_PER_TEZ)]) && lottery.ticketsAvailable == 2;
    assert lottery.players[1] == bob && |lottery.players| == 3 && 3 !in lottery.players && 4 !in lottery.players;
    var r4 := lottery.BuyTicket(charles, 1 * MUTEZ_PER_TEZ);
    refunds := refunds + [r3, r4];
  }

  /** The last purchase: mike pays exactly 1 tez, and the round is sold out
      with 5 tez in the contract. */
  method SellOut(admin: Address, alice: Address, bob: Address, mike: Address,
                 charles: Address, john: Address)
    returns (lottery: Lottery, refunds: seq<Result<seq<Operation>>>)
    ensures fresh(lottery)
    ensures lottery.operator == admin && lottery.maxTickets == 5 && lottery.ticketsAvailable == 0
    ensures 1 in lottery.players && lottery.players[1] == bob && lottery.balance == 5 * MUTEZ_PER_TEZ
    ensures refunds == [Ok([]), Ok([Transfer(bob, 1 * MUTEZ_PER_TEZ)]),
                        Ok([Transfer(john, 2 * MUTEZ_PER_TEZ)]), Ok([]), Ok([])]
  {
    lottery, refunds := FillRound(admin, alice, bob, charles, john);
    var r5 := lottery.BuyTicket(mike, 1 * MUTEZ_PER_TEZ);
    refunds := refunds + [r5];
  }

  /** The contract's test scenario: after the round is sold out a sixth
      purchase is refused, and the admin ends the game with seed 21, which
      draws ticket 21 % 5 == 1 and pays its buyer, bob, the 5 tez pool. */
  method TestScenario(admin: Address, alice: Address, bob: Address, mike: Address,
                      charles: Address, john: Address)
    returns (refunds: seq<Result<seq<Operation>>>, sixth: Result<seq<Operation>>,
             settlement: Result<seq<Operation>>)
    ensures refunds == [Ok([]), Ok([Transfer(bob, 1 * MUTEZ_PER_TEZ)]),
                        Ok([Transfer(john, 2 * MUTEZ_PER_TEZ)]), Ok([]), Ok([])]
    ensures sixth == Err(FailWith("NO TICKETS AVAILABLE"))
    ensures settlement == Ok([Transfer(bob, 5 * MUTEZ_PER_TEZ)])
  {
    var lottery;
    lottery, refunds := SellOut(admin, alice, bob, mike, charles, john);
    sixth := lottery.BuyTicket(alice, 1 * MUTEZ_PER_TEZ);
    settlement := lottery.EndGame(admin, 0, 21);
  }
}
