/** What each action of the emulated chain does to its maps, told entry by entry from the ledger before and after. */
module ActionLaws {
  import opened Polling
  import opened Ledgers
  import opened Conservation

  /** Apart from `at`, the map holds what it held. */
  ghost predicate ElsewhereSame<K, V>(before: map<K, V>, after: map<K, V>, at: K) {
    && before.Keys - {at} == after.Keys - {at}
    && forall k :: k in before && k in after && k != at ==> after[k] == before[k]
  }

  // Payments.

  /** A payment succeeds exactly if the payer has an entry that covers it; it moves the amount and nothing else. */
  lemma PaymentLaw(m: map<Address, nat>, from: Option<Address>, to: Address, amount: nat, a: Address)
    ensures Paid(m, from, to, amount).Some? <==> from.Some? && from.value in m && amount <= m[from.value]
    ensures Paid(m, from, to, amount).Some? ==>
      Balance(Paid(m, from, to, amount).value, a) ==
        Balance(m, a) + (if a == to then amount else 0) - (if a == from.value then amount else 0)
  {
  }

  /** A withdrawal takes from the signer, or from the safe of the signer's account, as its payer says. */
  lemma WithdrawalLaw(l: Ledger, sender: Address, to: Address, amount: nat, payer: Payer, a: Address)
    ensures var from := if payer.Eoa? then Some(sender) else SafeOf(l.accounts, sender);
      var native := Acted(l, Tx(sender, WithdrawNative(to, amount, payer)));
      var token := Acted(l, Tx(sender, WithdrawToken(to, amount, payer)));
      && (native.ok <==> from.Some? && from.value in l.natives && amount <= l.natives[from.value])
      && (token.ok <==> from.Some? && from.value in l.tokens && amount <= l.tokens[from.value])
      && (native.ok ==>
            Balance(native.ledger.natives, a) ==
            Balance(l.natives, a) + (if a == to then amount else 0) - (if Some(a) == from then amount else 0))
      && (token.ok ==>
            Balance(token.ledger.tokens, a) ==
            Balance(l.tokens, a) + (if a == to then amount else 0) - (if Some(a) == from then amount else 0))
      && native.ledger.tokens == l.tokens && token.ledger.natives == l.natives
      && (!native.ok ==> native.ledger == l) && (!token.ok ==> token.ledger == l)
  {
    hide Paid, SafeOf, Balance;
    var from := Source(l.accounts, sender, payer);
    PaymentLaw(l.natives, from, to, amount, a);
    PaymentLaw(l.tokens, from, to, amount, a);
  }

  // Approvals and accounts.

  /** An approval of the channels contract by a safe sets that safe's allowance; any other approval changes nothing. */
  lemma ApprovalLaw(l: Ledger, sender: Address, spender: Address, amount: nat, payer: Payer)
    ensures var o, safe := Acted(l, Tx(sender, Approve(spender, amount, payer))), SafeOf(l.accounts, sender);
      if payer.Safe? && spender == l.channelsContract then
        && (o.ok <==> safe.Some? && safe.value in l.allowances)
        && (o.ok ==> safe.value in o.ledger.allowances && o.ledger.allowances[safe.value] == amount
                     && ElsewhereSame(l.allowances, o.ledger.allowances, safe.value))
        && (!o.ok ==> o.ledger == l)
      else o.ok && o.ledger == l
  {
    hide SafeOf;
  }

  /** Registration adds the node to a deployed safe that does not have it yet. */
  lemma RegistrationLaw(l: Ledger, sender: Address, safe: Address)
    ensures var o := Acted(l, Tx(sender, RegisterSafeAddress(safe)));
      && (o.ok <==> safe in l.registeredNodes && sender !in l.registeredNodes[safe])
      && (o.ok ==>
            && safe in o.ledger.registeredNodes
            && o.ledger.registeredNodes[safe] == l.registeredNodes[safe] + [sender]
            && ElsewhereSame(l.registeredNodes, o.ledger.registeredNodes, safe))
      && (!o.ok ==> o.ledger == l)
  {
    hide AccountOf;
  }

  /** It also gives the node's account, if there is one, that safe, and leaves all other accounts alone. */
  lemma RegistrationAttaches(l: Ledger, sender: Address, safe: Address)
    requires Distinct(l.accounts) && Acted(l, Tx(sender, RegisterSafeAddress(safe))).ok
    ensures var before, after := l.accounts, Acted(l, Tx(sender, RegisterSafeAddress(safe))).ledger.accounts;
      && after.Keys == before.Keys
      && (AccountOf(before, sender).Some? ==> SafeOf(after, sender) == Some(safe))
      && (forall i :: i in before ==>
            after[i] == if before[i].chainKey == sender then before[i].(safe := Some(safe)) else before[i])
  {
    var k, after := AccountOf(l.accounts, sender), Register(l, sender, safe).ledger.accounts;
    if k.Some? {
      assert after[k.value].chainKey == sender;
      assert AccountOf(after, sender) == k;
    }
  }

  /** The first announcement of a chain key always succeeds, and opens an account for it under a new key. */
  lemma FirstAnnouncementLaw(l: Ledger, sender: Address, multiaddress: Option<string>, owned: Option<Address>)
    requires AccountOf(l.accounts, sender).None?
    ensures var o, key := Acted(l, Tx(sender, Announce(multiaddress, owned))), NextKey(l.accounts);
      var known := if multiaddress.Some? then [multiaddress.value] else [];
      && o.ok && key !in l.accounts && key in o.ledger.accounts
      && o.ledger.accounts[key] == Account(sender, key, known, owned)
      && ElsewhereSame(l.accounts, o.ledger.accounts, key)
      && AccountOf(o.ledger.accounts, sender) == Some(key)
  {
    var after := Announced(l, sender, multiaddress, owned).ledger.accounts;
    assert after[NextKey(l.accounts)].chainKey == sender;
  }

  /** A later one succeeds unless its address is empty, adds the address if there is one, and keeps the rest. */
  lemma ReannouncementLaw(l: Ledger, sender: Address, multiaddress: Option<string>, owned: Option<Address>)
    requires AccountOf(l.accounts, sender).Some?
    ensures var o, key := Acted(l, Tx(sender, Announce(multiaddress, owned))), AccountOf(l.accounts, sender).value;
      && (o.ok <==> multiaddress != Some(""))
      && (!o.ok ==> o.ledger == l)
      && (o.ok ==>
            var before, after := l.accounts[key], o.ledger.accounts[key];
            && ElsewhereSame(l.accounts, o.ledger.accounts, key)
            && after.chainKey == before.chainKey && after.keyid == before.keyid && after.safe == before.safe
            && after.multiAddresses ==
                 before.multiAddresses + if multiaddress.Some? then [multiaddress.value] else [])
  {
    hide AccountOf;
  }

  // Channels.

  /** What funding makes of the one channel it concerns. */
  predicate FundedChannel(before: Option<Channel>, after: Channel, stake: nat) {
    match before
    case None => after.status.Open? && after.balance == stake && after.epoch == 1 && after.ticketIndex == 0
    case Some(c) =>
      && after.balance == c.balance + stake && after.source == c.source && after.destination == c.destination
      && if c.status.Closed? then after.status.Open? && after.epoch == c.epoch + 1 && after.ticketIndex == 0
         else after.status == c.status && after.epoch == c.epoch && after.ticketIndex == c.ticketIndex
  }

  function Lookup(channels: map<ChannelId, Channel>, id: ChannelId): Option<Channel> {
    if id in channels then Some(channels[id]) else None
  }

  /**
   A successful funding concerns exactly the channel from its sender to its receiver: a new channel is opened, a
   closed one is opened again in the next epoch with its tickets starting over, any other just gets the stake. A
   funding that fails changes nothing, except that one beyond the allowance has taken the stake from the safe.
  */
  lemma FundingLaw(l: Ledger, sender: Address, to: Address, stake: nat)
    requires WellFormed(l)
    ensures var o, safe := Acted(l, Tx(sender, FundChannel(to, stake))), SafeOf(l.accounts, sender);
      && (o.ok <==>
            && AccountOf(l.accounts, to).Some? && safe.Some? && stake > 0
            && stake <= Balance(l.tokens, safe.value) && stake <= Balance(l.allowances, safe.value))
      && (o.ok ==>
            var id := ChannelId(sender, to);
            && id in o.ledger.channels && FundedChannel(Lookup(l.channels, id), o.ledger.channels[id], stake)
            && ElsewhereSame(l.channels, o.ledger.channels, id)
            && Balance(o.ledger.tokens, safe.value) == Balance(l.tokens, safe.value) - stake
            && Balance(o.ledger.allowances, safe.value) == Balance(l.allowances, safe.value) - stake
            && ElsewhereSame(l.tokens, o.ledger.tokens, safe.value)
            && ElsewhereSame(l.allowances, o.ledger.allowances, safe.value))
      && (!o.ok ==> o.ledger == l.(tokens := o.ledger.tokens))
      && (!o.ok && Overdrawn(l, sender, to, stake) ==>
            && Balance(o.ledger.tokens, safe.value) == Balance(l.tokens, safe.value) - stake
            && ElsewhereSame(l.tokens, o.ledger.tokens, safe.value))
      && (!o.ok && !Overdrawn(l, sender, to, stake) ==> o.ledger == l)
  {
    hide WellFormed;
    if Funded(l, sender, to, stake).ok {
      OpensOnlyNew(l, sender, to);
    }
  }

  /** The channel is the same but for its status. */
  predicate OnlyStatus(before: map<ChannelId, Channel>, after: map<ChannelId, Channel>, id: ChannelId, status: Status)
    requires id in before
  {
    id in after && after[id].status == status && after[id].(status := before[id].status) == before[id]
  }

  /** Closing: begun on any channel, finished only where it is pending, imposed by the peer on any channel. */
  lemma ClosureLaw(l: Ledger, sender: Address, id: ChannelId)
    ensures var begun := Acted(l, Tx(sender, InitializeChannelClosure(id)));
      var done := Acted(l, Tx(sender, FinalizeChannelClosure(id)));
      var byPeer := Acted(l, Tx(sender, IncomingChannelClosure(id)));
      && (begun.ok <==> id in l.channels)
      && (begun.ok ==> OnlyStatus(l.channels, begun.ledger.channels, id, PendingToClose))
      && (done.ok <==> id in l.channels && l.channels[id].status == PendingToClose)
      && (done.ok ==> OnlyStatus(l.channels, done.ledger.channels, id, Closed))
      && (byPeer.ok <==> id in l.channels)
      && (byPeer.ok ==> OnlyStatus(l.channels, byPeer.ledger.channels, id, Closed))
      && (forall o :: o in {begun, done, byPeer} ==>
            ElsewhereSame(l.channels, o.ledger.channels, id) && o.ledger.(channels := l.channels) == l)
  {
  }

  /**
   A ticket is redeemed exactly if its channel is not closed, its index has not been passed and the channel covers
   it; the index is then passed. The receiver's safe counts one more redemption of that amount if it is paid.
  */
  lemma RedemptionLaw(l: Ledger, sender: Address, id: ChannelId, index: nat, amount: nat)
    ensures var o := Acted(l, Tx(sender, RedeemTicket(id, index, amount)));
      && (o.ok <==>
            && id in l.channels && l.channels[id].status != Closed
            && l.channels[id].ticketIndex <= index && amount <= l.channels[id].balance)
      && (!o.ok ==> o.ledger == l)
      && (o.ok ==>
            && id in o.ledger.channels && o.ledger.channels[id].ticketIndex == index + 1
            && o.ledger.channels[id].status == l.channels[id].status
            && o.ledger.channels[id].epoch == l.channels[id].epoch)
  {
    hide PayeeOf, Credited;
    if Redeemable(l, id, index, amount) {
      var drawn := l.(channels := Drawn(l.channels, id, index, amount));
      CreditKeepsRest(drawn, PayeeOf(drawn, id), amount, id);
    }
  }

  /** Crediting somebody changes nothing of a channel but its balance. */
  lemma CreditKeepsRest(l: Ledger, payee: Payee, amount: nat, id: ChannelId)
    requires id in l.channels
    requires payee.Opposite? ==> payee.id in l.channels
    requires payee.SafeBalance? ==> payee.safe in l.tokens
    ensures var after := Credited(l, payee, amount).channels;
      id in after && after[id].(balance := l.channels[id].balance) == l.channels[id]
  {
  }

  /** A redemption that pays a safe adds its amount to the safe's redeemed amount and one to its count. */
  lemma StatisticsLaw(l: Ledger, sender: Address, id: ChannelId, index: nat, amount: nat, safe: Address)
    requires Redeemable(l, id, index, amount)
    requires PayeeOf(l.(channels := Drawn(l.channels, id, index, amount)), id) == SafeBalance(safe)
    ensures var before, after := l.redeemed, Acted(l, Tx(sender, RedeemTicket(id, index, amount))).ledger.redeemed;
      && safe in after && ElsewhereSame(before, after, safe)
      && after[safe].amount == amount + (if safe in before then before[safe].amount else 0)
      && after[safe].count == 1 + if safe in before then before[safe].count else 0
  {
    hide PayeeOf;
  }

  /** And only such a redemption touches the statistics. */
  lemma OnlyPaidSafesCount(l: Ledger, tx: Tx)
    requires Apply(l, tx).ledger.redeemed != l.redeemed
    ensures tx.action.RedeemTicket?
    ensures var RedeemTicket(id, index, amount) := tx.action;
      Redeemable(l, id, index, amount) && PayeeOf(l.(channels := Drawn(l.channels, id, index, amount)), id).SafeBalance?
  {
    hide PayeeOf, Register, Announced, NativeWithdrawn, TokenWithdrawn, Approved, Funded, WithStatus, Charged;
  }

  /** The channel that leads back, if there is one, is credited with the ticket, and no address is. */
  lemma CreditedBack(l: Ledger, sender: Address, id: ChannelId, index: nat, amount: nat, back: ChannelId)
    requires WellFormed(l) && Redeemable(l, id, index, amount) && back in l.channels
    requires l.channels[back].source == l.channels[id].destination
    requires l.channels[back].destination == l.channels[id].source
    ensures var after := Acted(l, Tx(sender, RedeemTicket(id, index, amount))).ledger;
      && after.tokens == l.tokens && after.redeemed == l.redeemed
      && back in after.channels && id in after.channels
      && (back != id ==>
            && after.channels[back] == l.channels[back].(balance := l.channels[back].balance + amount)
            && after.channels[id].balance == l.channels[id].balance - amount)
      && (back == id ==> after.channels[id].balance == l.channels[id].balance)
      && (forall other :: other in l.channels && other != id && other != back ==>
            other in after.channels && after.channels[other] == l.channels[other])
  {
    var drawn := l.(channels := Drawn(l.channels, id, index, amount));
    UpdatingKeepsEnds(l, id, drawn.channels[id]);
    var payee := PayeeOf(drawn, id);
    assert drawn.channels[back].source == l.channels[id].destination;
    assert drawn.channels[back].destination == l.channels[id].source;
    assert payee.Opposite?;
    OnePerPair(drawn, payee.id, back);
    hide PayeeOf;
  }

  /** Without a channel back, the funded safe of the receiving account is, and without one, nobody. */
  lemma CreditedToSafe(l: Ledger, sender: Address, id: ChannelId, index: nat, amount: nat)
    requires WellFormed(l) && Redeemable(l, id, index, amount)
    requires forall i :: i in l.channels ==>
      !(l.channels[i].source == l.channels[id].destination && l.channels[i].destination == l.channels[id].source)
    ensures l.channels[id].destination in l.accounts
    ensures var after := Acted(l, Tx(sender, RedeemTicket(id, index, amount))).ledger;
      var safe := l.accounts[l.channels[id].destination].safe;
      && id in after.channels && after.channels[id].balance == l.channels[id].balance - amount
      && ElsewhereSame(l.channels, after.channels, id)
      && if safe.Some? && safe.value in l.tokens then
           && safe.value in after.tokens && after.tokens[safe.value] == l.tokens[safe.value] + amount
           && ElsewhereSame(l.tokens, after.tokens, safe.value)
         else after.tokens == l.tokens
  {
    hide ChannelBetween, Distinct, Counted;
    assert Joins(l.accounts, id, l.channels[id]);
    DrawnKeepsEnds(l.channels, id, index, amount, l.channels[id].destination, l.channels[id].source);
  }

  // Fees.

  /**
   A transaction succeeds exactly if its action does and the sender can then pay the fee. An action that succeeds is
   counted even if its fee cannot be paid; a failed action is not counted, and its partial update stays.
  */
  lemma FeeLaw(l: Ledger, tx: Tx)
    ensures var acted, o := Acted(l, tx), Apply(l, tx);
      var paid := EMULATED_TX_PRICE <= Balance(acted.ledger.natives, tx.sender);
      && (o.ok <==> acted.ok && paid)
      && (!acted.ok ==> o.ledger == acted.ledger)
      && (acted.ok ==>
            && Balance(o.ledger.txCounts, tx.sender) == Balance(l.txCounts, tx.sender) + 1
            && ElsewhereSame(l.txCounts, o.ledger.txCounts, tx.sender)
            && Balance(o.ledger.natives, tx.sender) ==
                 Balance(acted.ledger.natives, tx.sender) - (if paid then EMULATED_TX_PRICE else 0)
            && ElsewhereSame(acted.ledger.natives, o.ledger.natives, tx.sender)
            && o.ledger.(natives := acted.ledger.natives, txCounts := acted.ledger.txCounts) == acted.ledger)
  {
    hide Register, Announced, NativeWithdrawn, TokenWithdrawn, Approved, Funded, Redeemed, WithStatus;
  }
}
