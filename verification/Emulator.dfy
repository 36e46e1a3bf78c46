/** The emulated chain as the program keeps it: maps that each parsed transaction updates in place. */
module Emulator {
  import opened Polling
  import opened Ledgers

  class BlokliTestState {
    const channelsContract: Address
    var accounts: map<KeyId, Account>
    var registeredNodes: map<Address, seq<Address>>
    var tokens: map<Address, nat>
    var natives: map<Address, nat>
    var allowances: map<Address, nat>
    var channels: map<ChannelId, Channel>
    var redeemed: map<Address, Stats>
    var txCounts: map<Address, nat>

    constructor (channelsContract: Address, registeredNodes: map<Address, seq<Address>>, tokens: map<Address, nat>,
        natives: map<Address, nat>, allowances: map<Address, nat>)
      ensures View() == Ledger(channelsContract, map[], registeredNodes, tokens, natives, allowances, map[], map[], map[])
      ensures WellFormed(View())
    {
      this.channelsContract := channelsContract;
      this.registeredNodes, this.tokens, this.natives, this.allowances := registeredNodes, tokens, natives, allowances;
      accounts, channels, redeemed, txCounts := map[], map[], map[], map[];
    }

    ghost function View(): Ledger
      reads this
    {
      Ledger(channelsContract, accounts, registeredNodes, tokens, natives, allowances, channels, redeemed, txCounts)
    }

    // Lookups.

    method GetAccount(a: Address) returns (k: Option<KeyId>)
      requires Distinct(accounts)
      ensures k == AccountOf(accounts, a)
    {
      var rest := accounts.Keys;
      while rest != {}
        invariant rest <= accounts.Keys
        invariant forall i :: i in accounts && i !in rest ==> accounts[i].chainKey != a
        decreases |rest|
      {
        var i :| i in rest;
        if accounts[i].chainKey == a {
          return Some(i);
        }
        rest := rest - {i};
      }
      return None;
    }

    method GetAccountSafe(a: Address) returns (safe: Option<Address>)
      requires Distinct(accounts)
      ensures safe == SafeOf(accounts, a)
    {
      var k := GetAccount(a);
      safe := if k.None? then None else accounts[k.value].safe;
    }

    method GetPayer(sender: Address, payer: Payer) returns (from: Option<Address>)
      requires Distinct(accounts)
      ensures from == Source(accounts, sender, payer)
    {
      if payer.Eoa? {
        from := Some(sender);
      } else {
        from := GetAccountSafe(sender);
      }
    }

    /** The first channel met that leads from `source` to `destination`; by `OnePerPair`, the only one. */
    method FindChannel(source: KeyId, destination: KeyId) returns (id: Option<ChannelId>)
      requires WellFormed(View())
      ensures id == ChannelBetween(channels, source, destination)
    {
      var rest := channels.Keys;
      while rest != {}
        invariant rest <= channels.Keys
        invariant forall i :: i in channels && i !in rest ==>
          !(channels[i].source == source && channels[i].destination == destination)
        decreases |rest|
      {
        var i :| i in rest;
        if channels[i].source == source && channels[i].destination == destination {
          OnePerPair(View(), i, ChannelBetween(channels, source, destination).value);
          return Some(i);
        }
        rest := rest - {i};
      }
      return None;
    }

    method NextKeyId() returns (k: KeyId)
      ensures k == NextKey(accounts)
    {
      var rest := accounts.Keys;
      k := 1;
      if rest != {} {
        var first :| first in rest;
        k := first + 1;
      }
      while rest != {}
        invariant rest <= accounts.Keys
        invariant forall i :: i in accounts && i !in rest ==> i < k
        invariant if accounts == map[] then k == 1 else k > 0 && k - 1 in accounts
        decreases |rest|
      {
        var i :| i in rest;
        if i >= k {
          k := i + 1;
        }
        rest := rest - {i};
      }
      assert FreshKey(accounts, k);
    }

    // Actions.

    method RegisterSafe(sender: Address, safe: Address) returns (ok: bool)
      requires Distinct(accounts)
      modifies this
      ensures Outcome(ok, View()) == Register(old(View()), sender, safe)
    {
      if safe !in registeredNodes || sender in registeredNodes[safe] {
        return false;
      }
      registeredNodes := registeredNodes[safe := registeredNodes[safe] + [sender]];
      var k := GetAccount(sender);
      if k.Some? {
        accounts := accounts[k.value := accounts[k.value].(safe := Some(safe))];
      }
      return true;
    }

    method Announce(sender: Address, multiaddress: Option<string>, owned: Option<Address>) returns (ok: bool)
      requires Distinct(accounts)
      modifies this
      ensures Outcome(ok, View()) == Announced(old(View()), sender, multiaddress, owned)
    {
      var k := GetAccount(sender);
      if k.Some? {
        if multiaddress.Some? {
          if multiaddress.value == "" {
            return false;
          }
          var account := accounts[k.value];
          accounts := accounts[k.value := account.(multiAddresses := account.multiAddresses + [multiaddress.value])];
        }
      } else {
        var next := NextKeyId();
        var known := if multiaddress.Some? then [multiaddress.value] else [];
        accounts := accounts[next := Account(sender, next, known, owned)];
      }
      return true;
    }

    method WithdrawNative(sender: Address, to: Address, amount: nat, payer: Payer) returns (ok: bool)
      requires Distinct(accounts)
      modifies this
      ensures Outcome(ok, View()) == NativeWithdrawn(old(View()), sender, to, amount, payer)
    {
      var from := GetPayer(sender, payer);
      if from.None? || from.value !in natives || natives[from.value] < amount {
        return false;
      }
      natives := natives[from.value := natives[from.value] - amount];
      if to in natives {
        natives := natives[to := natives[to] + amount];
      } else {
        natives := natives[to := amount];
      }
      return true;
    }

    method WithdrawToken(sender: Address, to: Address, amount: nat, payer: Payer) returns (ok: bool)
      requires Distinct(accounts)
      modifies this
      ensures Outcome(ok, View()) == TokenWithdrawn(old(View()), sender, to, amount, payer)
    {
      var from := GetPayer(sender, payer);
      if from.None? || from.value !in tokens || tokens[from.value] < amount {
        return false;
      }
      tokens := tokens[from.value := tokens[from.value] - amount];
      if to in tokens {
        tokens := tokens[to := tokens[to] + amount];
      } else {
        tokens := tokens[to := amount];
      }
      return true;
    }

    method Approve(sender: Address, spender: Address, amount: nat, payer: Payer) returns (ok: bool)
      requires Distinct(accounts)
      modifies this
      ensures Outcome(ok, View()) == Approved(old(View()), sender, spender, amount, payer)
    {
      if payer.Safe? && spender == channelsContract {
        var safe := GetAccountSafe(sender);
        if safe.None? || safe.value !in allowances {
          return false;
        }
        allowances := allowances[safe.value := amount];
      }
      return true;
    }

    /** Takes `stake` from the safe and its allowance; a safe whose allowance is too low has been debited by then. */
    method TakeStake(safe: Address, stake: nat) returns (ok: bool)
      requires stake > 0
      modifies `tokens, `allowances
      ensures ok <==> stake <= old(Balance(tokens, safe)) && stake <= old(Balance(allowances, safe))
      ensures tokens ==
        if stake <= old(Balance(tokens, safe)) then old(tokens)[safe := old(Balance(tokens, safe)) - stake] else old(tokens)
      ensures allowances == if ok then old(allowances)[safe := old(allowances)[safe] - stake] else old(allowances)
    {
      if safe !in tokens || tokens[safe] < stake {
        return false;
      }
      tokens := tokens[safe := tokens[safe] - stake];
      if safe !in allowances || allowances[safe] < stake {
        return false;
      }
      allowances := allowances[safe := allowances[safe] - stake];
      return true;
    }

    method AddStake(sender: Address, to: Address, source: KeyId, destination: KeyId, stake: nat)
      requires WellFormed(View())
      modifies `channels
      ensures channels == Staked(old(channels), sender, to, source, destination, stake)
    {
      var id := FindChannel(source, destination);
      if id.Some? {
        var existing := channels[id.value];
        if existing.status.Closed? {
          existing := existing.(status := Open, ticketIndex := 0, epoch := existing.epoch + 1);
        }
        channels := channels[id.value := existing.(balance := existing.balance + stake)];
      } else {
        channels := channels[ChannelId(sender, to) := Channel(source, destination, Open, stake, 1, 0)];
      }
    }

    method FundChannel(sender: Address, to: Address, stake: nat) returns (ok: bool)
      requires WellFormed(View())
      modifies this
      ensures Outcome(ok, View()) == Funded(old(View()), sender, to, stake)
    {
      var source := GetAccount(sender);
      if source.None? {
        return false;
      }
      var destination := GetAccount(to);
      if destination.None? || stake == 0 {
        return false;
      }
      var safe := GetAccountSafe(sender);
      if safe.None? {
        return false;
      }
      ok := TakeStake(safe.value, stake);
      if ok {
        AddStake(sender, to, source.value, destination.value, stake);
      }
    }

    method InitializeChannelClosure(id: ChannelId) returns (ok: bool)
      modifies this
      ensures Outcome(ok, View()) == ClosureBegun(old(View()), id)
    {
      if id !in channels {
        return false;
      }
      channels := channels[id := channels[id].(status := PendingToClose)];
      return true;
    }

    method FinalizeChannelClosure(id: ChannelId) returns (ok: bool)
      modifies this
      ensures Outcome(ok, View()) == ClosureDone(old(View()), id)
    {
      if id !in channels || channels[id].status != PendingToClose {
        return false;
      }
      channels := channels[id := channels[id].(status := Closed)];
      return true;
    }

    method IncomingChannelClosure(id: ChannelId) returns (ok: bool)
      modifies this
      ensures Outcome(ok, View()) == ClosedByPeer(old(View()), id)
    {
      if id !in channels {
        return false;
      }
      channels := channels[id := channels[id].(status := Closed)];
      return true;
    }

    method CountRedemption(safe: Address, amount: nat)
      modifies `redeemed
      ensures redeemed == Counted(old(redeemed), safe, amount)
    {
      if safe in redeemed {
        var stats := redeemed[safe];
        redeemed := redeemed[safe := Stats(stats.amount + amount, stats.count + 1)];
      } else {
        redeemed := redeemed[safe := Stats(amount, 1)];
      }
    }

    /** Pays a drawn ticket into the channel back, or else into the receiver's safe, or else to nobody. */
    method Credit(id: ChannelId, amount: nat)
      requires WellFormed(View()) && id in channels
      modifies this
      ensures View() == Credited(old(View()), PayeeOf(old(View()), id), amount)
    {
      var channel := channels[id];
      var back := FindChannel(channel.destination, channel.source);
      if back.Some? {
        var opposite := channels[back.value];
        channels := channels[back.value := opposite.(balance := opposite.balance + amount)];
      } else if channel.destination in accounts {
        var safe := accounts[channel.destination].safe;
        if safe.Some? && safe.value in tokens {
          tokens := tokens[safe.value := tokens[safe.value] + amount];
          CountRedemption(safe.value, amount);
        }
      }
    }

    method RedeemTicket(id: ChannelId, index: nat, amount: nat) returns (ok: bool)
      requires WellFormed(View())
      modifies this
      ensures Outcome(ok, View()) == Redeemed(old(View()), id, index, amount)
    {
      hide Credited, PayeeOf;
      if id !in channels || channels[id].status == Closed {
        return false;
      }
      if channels[id].ticketIndex > index || channels[id].balance < amount {
        return false;
      }
      UpdatingKeepsEnds(View(), id, Drawn(channels, id, index, amount)[id]);
      channels := channels[id := channels[id].(ticketIndex := index + 1, balance := channels[id].balance - amount)];
      Credit(id, amount);
      return true;
    }

    method Charge(sender: Address) returns (ok: bool)
      modifies this
      ensures Outcome(ok, View()) == Charged(old(View()), sender)
    {
      if sender !in txCounts {
        txCounts := txCounts[sender := 0];
      }
      txCounts := txCounts[sender := txCounts[sender] + 1];
      if sender !in natives || natives[sender] < EMULATED_TX_PRICE {
        return false;
      }
      natives := natives[sender := natives[sender] - EMULATED_TX_PRICE];
      return true;
    }

    method UpdateState(tx: Tx) returns (ok: bool)
      requires WellFormed(View())
      modifies this
      ensures Outcome(ok, View()) == Apply(old(View()), tx)
      ensures WellFormed(View())
    {
      hide Register, Announced, NativeWithdrawn, TokenWithdrawn, Approved, Funded, Redeemed, WithStatus, Charged;
      match tx.action {
        case RegisterSafeAddress(safe) => ok := RegisterSafe(tx.sender, safe);
        case Announce(multiaddress, owned) => ok := Announce(tx.sender, multiaddress, owned);
        case WithdrawNative(to, amount, payer) => ok := WithdrawNative(tx.sender, to, amount, payer);
        case WithdrawToken(to, amount, payer) => ok := WithdrawToken(tx.sender, to, amount, payer);
        case Approve(spender, amount, payer) => ok := Approve(tx.sender, spender, amount, payer);
        case FundChannel(to, stake) => ok := FundChannel(tx.sender, to, stake);
        case InitializeChannelClosure(id) => ok := InitializeChannelClosure(id);
        case FinalizeChannelClosure(id) => ok := FinalizeChannelClosure(id);
        case IncomingChannelClosure(id) => ok := IncomingChannelClosure(id);
        case RedeemTicket(id, index, amount) => ok := RedeemTicket(id, index, amount);
      }
      if ok {
        ok := Charge(tx.sender);
      }
      WellFormedKept(old(View()), tx);
    }
  }
}
