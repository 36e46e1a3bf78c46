/** The emulated chain as a value: what each transaction makes of accounts, balances and channels. */
module Ledgers {
  import opened Polling

  type Address(==)

  type KeyId = nat

  /** The identifier generated from the two ends of a channel. */
  datatype ChannelId = ChannelId(source: Address, destination: Address)

  datatype Status = Open | PendingToClose | Closed

  datatype Channel = Channel(source: KeyId, destination: KeyId, status: Status, balance: nat, epoch: nat, ticketIndex: nat)

  datatype Account = Account(chainKey: Address, keyid: KeyId, multiAddresses: seq<string>, safe: Option<Address>)

  datatype Stats = Stats(amount: nat, count: nat)

  datatype Payer = Eoa | Safe

  datatype Action =
    | RegisterSafeAddress(safe: Address)
    // `owned` is the safe, if any, that the state finds first for the announcing owner
    | Announce(multiaddress: Option<string>, owned: Option<Address>)
    | WithdrawNative(to: Address, amount: nat, payer: Payer)
    | WithdrawToken(to: Address, amount: nat, payer: Payer)
    | Approve(spender: Address, amount: nat, payer: Payer)
    | FundChannel(to: Address, stake: nat)
    | InitializeChannelClosure(id: ChannelId)
    | FinalizeChannelClosure(id: ChannelId)
    | IncomingChannelClosure(id: ChannelId)
    | RedeemTicket(id: ChannelId, index: nat, amount: nat)

  datatype Tx = Tx(sender: Address, action: Action)

  datatype Ledger = Ledger(
    channelsContract: Address,
    accounts: map<KeyId, Account>,
    registeredNodes: map<Address, seq<Address>>,
    tokens: map<Address, nat>,
    natives: map<Address, nat>,
    allowances: map<Address, nat>,
    channels: map<ChannelId, Channel>,
    redeemed: map<Address, Stats>,
    txCounts: map<Address, nat>)

  /** A transaction succeeds or fails; either way it leaves a ledger behind. */
  datatype Outcome = Outcome(ok: bool, ledger: Ledger)

  const EMULATED_TX_PRICE := 1

  // Lookups.

  /** The account of a chain key. */
  ghost function AccountOf(accounts: map<KeyId, Account>, a: Address): (k: Option<KeyId>)
    ensures k.Some? ==> k.value in accounts && accounts[k.value].chainKey == a
    ensures k.None? ==> forall i :: i in accounts ==> accounts[i].chainKey != a
  {
    if exists k :: k in accounts && accounts[k].chainKey == a then
      var k :| k in accounts && accounts[k].chainKey == a;
      Some(k)
    else None
  }

  /** The safe of an account. */
  ghost function SafeOf(accounts: map<KeyId, Account>, a: Address): Option<Address> {
    var k := AccountOf(accounts, a);
    if k.None? then None else accounts[k.value].safe
  }

  /** The address a payment is taken from. */
  ghost function Source(accounts: map<KeyId, Account>, sender: Address, payer: Payer): Option<Address> {
    if payer.Eoa? then Some(sender) else SafeOf(accounts, sender)
  }

  function Balance(m: map<Address, nat>, a: Address): nat {
    if a in m then m[a] else 0
  }

  /** The balances after `amount` went from `from` to `to`, if `from` can afford it. */
  function Move(m: map<Address, nat>, from: Address, to: Address, amount: nat): Option<map<Address, nat>> {
    if from !in m || m[from] < amount then None
    else
      var debited := m[from := m[from] - amount];
      Some(debited[to := Balance(debited, to) + amount])
  }

  function Paid(m: map<Address, nat>, from: Option<Address>, to: Address, amount: nat): Option<map<Address, nat>> {
    if from.None? then None else Move(m, from.value, to, amount)
  }

  function Reopened(c: Channel): Channel {
    if c.status.Closed? then c.(status := Open, ticketIndex := 0, epoch := c.epoch + 1) else c
  }

  // Actions.

  ghost function Register(l: Ledger, sender: Address, safe: Address): (o: Outcome)
    ensures
      && o.ledger.channelsContract == l.channelsContract && o.ledger.tokens == l.tokens
      && o.ledger.natives == l.natives && o.ledger.allowances == l.allowances && o.ledger.channels == l.channels
      && o.ledger.redeemed == l.redeemed && o.ledger.txCounts == l.txCounts
  {
    if safe !in l.registeredNodes || sender in l.registeredNodes[safe] then Outcome(false, l)
    else
      var l' := l.(registeredNodes := l.registeredNodes[safe := l.registeredNodes[safe] + [sender]]);
      var k := AccountOf(l.accounts, sender);
      if k.None? then Outcome(true, l')
      else Outcome(true, l'.(accounts := l.accounts[k.value := l.accounts[k.value].(safe := Some(safe))]))
  }

  /** The key id one above the largest in use, or 1 for the first account. */
  ghost predicate FreshKey(accounts: map<KeyId, Account>, k: KeyId) {
    if accounts == map[] then k == 1 else k > 0 && k - 1 in accounts && forall i :: i in accounts ==> i < k
  }

  lemma {:induction false} SomeLargest(keys: set<KeyId>)
    requires keys != {}
    ensures exists k :: k in keys && forall i :: i in keys ==> i <= k
    decreases |keys|
  {
    var j :| j in keys;
    var rest := keys - {j};
    if rest == {} {
      assert keys == {j};
    } else {
      SomeLargest(rest);
      var k :| k in rest && forall i :: i in rest ==> i <= k;
      var top := if j > k then j else k;
      assert forall i :: i in keys ==> i == j || i in rest;
      assert top in keys;
    }
  }

  lemma SomeFreshKey(accounts: map<KeyId, Account>)
    ensures exists k :: FreshKey(accounts, k)
  {
    if accounts == map[] {
      assert FreshKey(accounts, 1);
    } else {
      SomeLargest(accounts.Keys);
      var k :| k in accounts.Keys && forall i :: i in accounts.Keys ==> i <= k;
      assert FreshKey(accounts, k + 1);
    }
  }

  ghost function NextKey(accounts: map<KeyId, Account>): (k: KeyId)
    ensures FreshKey(accounts, k)
    ensures k !in accounts
  {
    SomeFreshKey(accounts);
    var k :| FreshKey(accounts, k);
    k
  }

  /** The account after an announcement of its owner; an address that is present must not be empty. */
  function Reannounced(account: Account, multiaddress: Option<string>): Option<Account> {
    if multiaddress.None? then Some(account)
    else if multiaddress.value == "" then None
    else Some(account.(multiAddresses := account.multiAddresses + [multiaddress.value]))
  }

  ghost function Announced(l: Ledger, sender: Address, multiaddress: Option<string>, owned: Option<Address>): (o: Outcome)
    ensures
      && o.ledger.channelsContract == l.channelsContract && o.ledger.registeredNodes == l.registeredNodes
      && o.ledger.tokens == l.tokens && o.ledger.natives == l.natives && o.ledger.allowances == l.allowances
      && o.ledger.channels == l.channels && o.ledger.redeemed == l.redeemed && o.ledger.txCounts == l.txCounts
  {
    var k := AccountOf(l.accounts, sender);
    var key := if k.None? then NextKey(l.accounts) else k.value;
    var account :=
      if k.None? then Some(Account(sender, key, if multiaddress.Some? then [multiaddress.value] else [], owned))
      else Reannounced(l.accounts[key], multiaddress);
    if account.None? then Outcome(false, l)
    else Outcome(true, l.(accounts := l.accounts[key := account.value]))
  }

  ghost function NativeWithdrawn(l: Ledger, sender: Address, to: Address, amount: nat, payer: Payer): (o: Outcome)
    ensures
      && o.ledger.channelsContract == l.channelsContract && o.ledger.accounts == l.accounts
      && o.ledger.registeredNodes == l.registeredNodes && o.ledger.tokens == l.tokens
      && o.ledger.allowances == l.allowances && o.ledger.channels == l.channels && o.ledger.redeemed == l.redeemed
      && o.ledger.txCounts == l.txCounts
  {
    var moved := Paid(l.natives, Source(l.accounts, sender, payer), to, amount);
    if moved.None? then Outcome(false, l) else Outcome(true, l.(natives := moved.value))
  }

  ghost function TokenWithdrawn(l: Ledger, sender: Address, to: Address, amount: nat, payer: Payer): (o: Outcome)
    ensures
      && o.ledger.channelsContract == l.channelsContract && o.ledger.accounts == l.accounts
      && o.ledger.registeredNodes == l.registeredNodes && o.ledger.natives == l.natives
      && o.ledger.allowances == l.allowances && o.ledger.channels == l.channels && o.ledger.redeemed == l.redeemed
      && o.ledger.txCounts == l.txCounts
  {
    var moved := Paid(l.tokens, Source(l.accounts, sender, payer), to, amount);
    if moved.None? then Outcome(false, l) else Outcome(true, l.(tokens := moved.value))
  }

  /** Only a safe's allowance towards the channels contract is tracked. */
  ghost function Approved(l: Ledger, sender: Address, spender: Address, amount: nat, payer: Payer): (o: Outcome)
    ensures
      && o.ledger.channelsContract == l.channelsContract && o.ledger.accounts == l.accounts
      && o.ledger.registeredNodes == l.registeredNodes && o.ledger.tokens == l.tokens && o.ledger.natives == l.natives
      && o.ledger.channels == l.channels && o.ledger.redeemed == l.redeemed && o.ledger.txCounts == l.txCounts
  {
    if payer.Eoa? || spender != l.channelsContract then Outcome(true, l)
    else
      var safe := SafeOf(l.accounts, sender);
      if safe.None? || safe.value !in l.allowances then Outcome(false, l)
      else Outcome(true, l.(allowances := l.allowances[safe.value := amount]))
  }

  /** The channel that leads from one key id to another. */
  ghost function ChannelBetween(channels: map<ChannelId, Channel>, source: KeyId, destination: KeyId)
    : (id: Option<ChannelId>)
    ensures id.Some? ==>
      id.value in channels && channels[id.value].source == source && channels[id.value].destination == destination
    ensures id.None? ==>
      forall i :: i in channels ==> !(channels[i].source == source && channels[i].destination == destination)
  {
    if exists i :: i in channels && channels[i].source == source && channels[i].destination == destination then
      var i :| i in channels && channels[i].source == source && channels[i].destination == destination;
      Some(i)
    else None
  }

  /** The channels after `stake` was put into the one from `sender` to `to`. */
  ghost function Staked(channels: map<ChannelId, Channel>, sender: Address, to: Address, source: KeyId,
      destination: KeyId, stake: nat)
    : map<ChannelId, Channel>
  {
    var id := ChannelBetween(channels, source, destination);
    if id.Some? then
      var c := Reopened(channels[id.value]);
      channels[id.value := c.(balance := c.balance + stake)]
    else
      channels[ChannelId(sender, to) := Channel(source, destination, Open, stake, 1, 0)]
  }

  /** The safe is debited before its allowance is looked at, and stays debited if that falls short. */
  ghost function Funded(l: Ledger, sender: Address, to: Address, stake: nat): (o: Outcome)
    ensures
      && o.ledger.channelsContract == l.channelsContract && o.ledger.accounts == l.accounts
      && o.ledger.registeredNodes == l.registeredNodes && o.ledger.natives == l.natives
      && o.ledger.redeemed == l.redeemed && o.ledger.txCounts == l.txCounts
  {
    var source, destination, safe := AccountOf(l.accounts, sender), AccountOf(l.accounts, to), SafeOf(l.accounts, sender);
    if source.None? || destination.None? || stake == 0 || safe.None? || Balance(l.tokens, safe.value) < stake then
      Outcome(false, l)
    else
      var debited := l.(tokens := l.tokens[safe.value := Balance(l.tokens, safe.value) - stake]);
      if Balance(l.allowances, safe.value) < stake then Outcome(false, debited)
      else Outcome(true, debited.(
        allowances := l.allowances[safe.value := Balance(l.allowances, safe.value) - stake],
        channels := Staked(l.channels, sender, to, source.value, destination.value, stake)))
  }

  /** Channel `id` with another status, if there is such a channel. */
  function WithStatus(l: Ledger, id: ChannelId, status: Status): (o: Outcome)
    ensures
      && o.ledger.channelsContract == l.channelsContract && o.ledger.accounts == l.accounts
      && o.ledger.registeredNodes == l.registeredNodes && o.ledger.tokens == l.tokens && o.ledger.natives == l.natives
      && o.ledger.allowances == l.allowances && o.ledger.redeemed == l.redeemed && o.ledger.txCounts == l.txCounts
  {
    if id !in l.channels then Outcome(false, l)
    else Outcome(true, l.(channels := l.channels[id := l.channels[id].(status := status)]))
  }

  function ClosureBegun(l: Ledger, id: ChannelId): Outcome {
    WithStatus(l, id, PendingToClose)
  }

  function ClosureDone(l: Ledger, id: ChannelId): Outcome {
    if id in l.channels && !l.channels[id].status.PendingToClose? then Outcome(false, l) else WithStatus(l, id, Closed)
  }

  function ClosedByPeer(l: Ledger, id: ChannelId): Outcome {
    WithStatus(l, id, Closed)
  }

  predicate Redeemable(l: Ledger, id: ChannelId, index: nat, amount: nat) {
    && id in l.channels
    && !l.channels[id].status.Closed?
    && l.channels[id].ticketIndex <= index
    && amount <= l.channels[id].balance
  }

  /** The channels after a ticket was taken out of channel `id`, and before its value went anywhere. */
  function Drawn(channels: map<ChannelId, Channel>, id: ChannelId, index: nat, amount: nat): map<ChannelId, Channel>
    requires id in channels && amount <= channels[id].balance
  {
    channels[id := channels[id].(ticketIndex := index + 1, balance := channels[id].balance - amount)]
  }

  /** Where a redeemed ticket's value goes: the channel back, the receiver's funded safe, or nowhere. */
  datatype Payee = Opposite(id: ChannelId) | SafeBalance(safe: Address) | Nobody

  ghost function PayeeOf(l: Ledger, id: ChannelId): (p: Payee)
    requires id in l.channels
    ensures p.Opposite? ==> p.id in l.channels
    ensures p.SafeBalance? ==> p.safe in l.tokens
  {
    var c := l.channels[id];
    var back := ChannelBetween(l.channels, c.destination, c.source);
    if back.Some? then Opposite(back.value)
    else if c.destination !in l.accounts then Nobody
    else
      var safe := l.accounts[c.destination].safe;
      if safe.None? || safe.value !in l.tokens then Nobody else SafeBalance(safe.value)
  }

  function Counted(redeemed: map<Address, Stats>, safe: Address, amount: nat): map<Address, Stats> {
    if safe in redeemed then redeemed[safe := Stats(redeemed[safe].amount + amount, redeemed[safe].count + 1)]
    else redeemed[safe := Stats(amount, 1)]
  }

  function Credited(l: Ledger, payee: Payee, amount: nat): Ledger
    requires payee.Opposite? ==> payee.id in l.channels
    requires payee.SafeBalance? ==> payee.safe in l.tokens
  {
    match payee
    case Opposite(back) =>
      l.(channels := l.channels[back := l.channels[back].(balance := l.channels[back].balance + amount)])
    case SafeBalance(safe) =>
      l.(tokens := l.tokens[safe := l.tokens[safe] + amount], redeemed := Counted(l.redeemed, safe, amount))
    case Nobody => l
  }

  ghost function Redeemed(l: Ledger, id: ChannelId, index: nat, amount: nat): (o: Outcome)
    ensures
      && o.ledger.channelsContract == l.channelsContract && o.ledger.accounts == l.accounts
      && o.ledger.registeredNodes == l.registeredNodes && o.ledger.natives == l.natives
      && o.ledger.allowances == l.allowances && o.ledger.txCounts == l.txCounts
  {
    if !Redeemable(l, id, index, amount) then Outcome(false, l)
    else
      var drawn := l.(channels := Drawn(l.channels, id, index, amount));
      Outcome(true, Credited(drawn, PayeeOf(drawn, id), amount))
  }

  ghost function Acted(l: Ledger, tx: Tx): Outcome {
    match tx.action
    case RegisterSafeAddress(safe) => Register(l, tx.sender, safe)
    case Announce(multiaddress, owned) => Announced(l, tx.sender, multiaddress, owned)
    case WithdrawNative(to, amount, payer) => NativeWithdrawn(l, tx.sender, to, amount, payer)
    case WithdrawToken(to, amount, payer) => TokenWithdrawn(l, tx.sender, to, amount, payer)
    case Approve(spender, amount, payer) => Approved(l, tx.sender, spender, amount, payer)
    case FundChannel(to, stake) => Funded(l, tx.sender, to, stake)
    case InitializeChannelClosure(id) => ClosureBegun(l, id)
    case FinalizeChannelClosure(id) => ClosureDone(l, id)
    case IncomingChannelClosure(id) => ClosedByPeer(l, id)
    case RedeemTicket(id, index, amount) => Redeemed(l, id, index, amount)
  }

  /** The transaction is counted, and its sender charged; a sender who cannot pay is counted all the same. */
  function Charged(l: Ledger, sender: Address): (o: Outcome)
    ensures
      && o.ledger.channelsContract == l.channelsContract && o.ledger.accounts == l.accounts
      && o.ledger.registeredNodes == l.registeredNodes && o.ledger.tokens == l.tokens
      && o.ledger.allowances == l.allowances && o.ledger.channels == l.channels && o.ledger.redeemed == l.redeemed
  {
    var counted := l.(txCounts := l.txCounts[sender := Balance(l.txCounts, sender) + 1]);
    if Balance(l.natives, sender) < EMULATED_TX_PRICE then Outcome(false, counted)
    else Outcome(true, counted.(natives := l.natives[sender := l.natives[sender] - EMULATED_TX_PRICE]))
  }

  ghost function Apply(l: Ledger, tx: Tx): Outcome {
    var acted := Acted(l, tx);
    if acted.ok then Charged(acted.ledger, tx.sender) else acted
  }

  /** The ledger after a run; a failed transaction leaves its partial update behind. */
  ghost function After(l: Ledger, txs: seq<Tx>): Ledger {
    if txs == [] then l else Apply(After(l, txs[..|txs| - 1]), txs[|txs| - 1]).ledger
  }

  // What every run keeps.

  /** Account records carry their own key, and no two share a chain key. */
  ghost predicate Distinct(accounts: map<KeyId, Account>) {
    && (forall k :: k in accounts ==> accounts[k].keyid == k)
    && (forall j, k :: j in accounts && k in accounts && accounts[j].chainKey == accounts[k].chainKey ==> j == k)
  }

  /** A channel stored under `id` leads between the accounts that `id` names. */
  ghost predicate Joins(accounts: map<KeyId, Account>, id: ChannelId, c: Channel) {
    && c.source in accounts && accounts[c.source].chainKey == id.source
    && c.destination in accounts && accounts[c.destination].chainKey == id.destination
  }

  ghost predicate Anchored(accounts: map<KeyId, Account>, channels: map<ChannelId, Channel>) {
    forall id :: id in channels ==> Joins(accounts, id, channels[id])
  }

  ghost predicate WellFormed(l: Ledger) {
    Distinct(l.accounts) && Anchored(l.accounts, l.channels)
  }

  /** At most one channel leads from one account to another. */
  lemma OnePerPair(l: Ledger, i: ChannelId, j: ChannelId)
    requires WellFormed(l)
    requires i in l.channels && j in l.channels
    requires l.channels[i].source == l.channels[j].source && l.channels[i].destination == l.channels[j].destination
    ensures i == j
  {
    assert i.source == j.source;
    assert i.destination == j.destination;
  }

  /** A channel that a search by its ends does not find is not stored under its identifier either. */
  lemma OpensOnlyNew(l: Ledger, sender: Address, to: Address)
    requires WellFormed(l)
    requires AccountOf(l.accounts, sender).Some? && AccountOf(l.accounts, to).Some?
    ensures var id := ChannelBetween(l.channels, AccountOf(l.accounts, sender).value, AccountOf(l.accounts, to).value);
      if id.Some? then id.value == ChannelId(sender, to) else ChannelId(sender, to) !in l.channels
  {
    var source, destination := AccountOf(l.accounts, sender).value, AccountOf(l.accounts, to).value;
    var id := ChannelId(sender, to);
    if id in l.channels {
      assert l.channels[id].source == source;
      assert l.channels[id].destination == destination;
    }
    var found := ChannelBetween(l.channels, source, destination);
    if found.Some? {
      assert l.accounts[l.channels[found.value].source].chainKey == found.value.source;
      assert l.accounts[l.channels[found.value].destination].chainKey == found.value.destination;
    }
  }

  /** Each account of `before` is still there, with the same chain key. */
  ghost predicate KeepsKeys(before: map<KeyId, Account>, after: map<KeyId, Account>) {
    forall k :: k in before ==> k in after && after[k].chainKey == before[k].chainKey
  }

  /** Writing a record under its own key keeps the accounts distinct, if the chain key is that record's or nobody's. */
  lemma WritingKeepsAccounts(accounts: map<KeyId, Account>, account: Account)
    requires Distinct(accounts)
    requires
      if account.keyid in accounts then accounts[account.keyid].chainKey == account.chainKey
      else AccountOf(accounts, account.chainKey).None?
    ensures Distinct(accounts[account.keyid := account]) && KeepsKeys(accounts, accounts[account.keyid := account])
  {
  }

  lemma RegisteringKeepsAccounts(l: Ledger, sender: Address, safe: Address)
    requires Distinct(l.accounts)
    ensures var o := Register(l, sender, safe).ledger; Distinct(o.accounts) && KeepsKeys(l.accounts, o.accounts)
  {
    var k := AccountOf(l.accounts, sender);
    if k.Some? {
      WritingKeepsAccounts(l.accounts, l.accounts[k.value].(safe := Some(safe)));
    }
  }

  lemma AnnouncingKeepsAccounts(l: Ledger, sender: Address, multiaddress: Option<string>, owned: Option<Address>)
    requires Distinct(l.accounts)
    ensures var o := Announced(l, sender, multiaddress, owned).ledger;
      Distinct(o.accounts) && KeepsKeys(l.accounts, o.accounts)
  {
    hide NextKey;
    var o := Announced(l, sender, multiaddress, owned);
    var k := AccountOf(l.accounts, sender);
    if o.ok {
      var key := if k.None? then NextKey(l.accounts) else k.value;
      WritingKeepsAccounts(l.accounts, o.ledger.accounts[key]);
    }
  }

  lemma AccountsKept(l: Ledger, tx: Tx)
    requires Distinct(l.accounts)
    ensures var o := Apply(l, tx).ledger; Distinct(o.accounts) && KeepsKeys(l.accounts, o.accounts)
  {
    assert KeepsKeys(l.accounts, l.accounts);
    hide Register, Announced, NativeWithdrawn, TokenWithdrawn, Approved, Funded, WithStatus,
      Redeemed, Charged, Distinct, KeepsKeys;
    var o := Acted(l, tx).ledger.accounts;
    assert Distinct(o) && KeepsKeys(l.accounts, o) by {
      match tx.action
      case RegisterSafeAddress(safe) => RegisteringKeepsAccounts(l, tx.sender, safe);
      case Announce(multiaddress, owned) => AnnouncingKeepsAccounts(l, tx.sender, multiaddress, owned);
      case _ => assert o == l.accounts;
    }
  }

  /** The channels of `after` that `before` has too keep their ends. */
  ghost predicate KeepsEnds(before: map<ChannelId, Channel>, after: map<ChannelId, Channel>) {
    forall id :: id in before && id in after ==>
      after[id].source == before[id].source && after[id].destination == before[id].destination
  }

  lemma UpdatingKeepsEnds(l: Ledger, id: ChannelId, c: Channel)
    requires WellFormed(l) && id in l.channels
    requires c.source == l.channels[id].source && c.destination == l.channels[id].destination
    ensures KeepsEnds(l.channels, l.channels[id := c]) && Anchored(l.accounts, l.channels[id := c])
  {
  }

  lemma StatusKeepsEnds(l: Ledger, id: ChannelId, status: Status)
    requires WellFormed(l)
    ensures var o := WithStatus(l, id, status).ledger;
      KeepsEnds(l.channels, o.channels) && Anchored(l.accounts, o.channels)
  {
    if id in l.channels {
      UpdatingKeepsEnds(l, id, l.channels[id].(status := status));
    }
  }

  lemma StakingKeepsEnds(l: Ledger, sender: Address, to: Address, stake: nat)
    requires WellFormed(l)
    ensures var o := Funded(l, sender, to, stake).ledger;
      KeepsEnds(l.channels, o.channels) && Anchored(l.accounts, o.channels)
  {
    hide SafeOf;
    if AccountOf(l.accounts, sender).Some? && AccountOf(l.accounts, to).Some? {
      OpensOnlyNew(l, sender, to);
    }
  }

  lemma RedeemingKeepsEnds(l: Ledger, id: ChannelId, index: nat, amount: nat)
    requires WellFormed(l)
    ensures var o := Redeemed(l, id, index, amount).ledger;
      KeepsEnds(l.channels, o.channels) && Anchored(l.accounts, o.channels)
  {
    hide ChannelBetween, Joins;
    if Redeemable(l, id, index, amount) {
      var drawn := l.(channels := Drawn(l.channels, id, index, amount));
      UpdatingKeepsEnds(l, id, drawn.channels[id]);
      var payee := PayeeOf(drawn, id);
      if payee.Opposite? {
        var c := drawn.channels[payee.id];
        UpdatingKeepsEnds(drawn, payee.id, c.(balance := c.balance + amount));
      }
    }
  }

  /** A transaction leaves a channel's ends alone, and a channel it opens leads between the accounts of its identifier. */
  lemma EndsKept(l: Ledger, tx: Tx)
    requires WellFormed(l)
    ensures var after := Apply(l, tx).ledger.channels; KeepsEnds(l.channels, after) && Anchored(l.accounts, after)
  {
    assert KeepsEnds(l.channels, l.channels);
    hide Register, Announced, NativeWithdrawn, TokenWithdrawn, Approved, Funded, Redeemed, WithStatus, Charged;
    hide KeepsEnds, Anchored;
    var o := Acted(l, tx).ledger.channels;
    assert KeepsEnds(l.channels, o) && Anchored(l.accounts, o) by {
      match tx.action
      case FundChannel(to, stake) => StakingKeepsEnds(l, tx.sender, to, stake);
      case RedeemTicket(id, index, amount) => RedeemingKeepsEnds(l, id, index, amount);
      case InitializeChannelClosure(id) => StatusKeepsEnds(l, id, PendingToClose);
      case FinalizeChannelClosure(id) => StatusKeepsEnds(l, id, Closed);
      case IncomingChannelClosure(id) => StatusKeepsEnds(l, id, Closed);
      case _ =>
    }
  }

  lemma WellFormedKept(l: Ledger, tx: Tx)
    requires WellFormed(l)
    ensures WellFormed(Apply(l, tx).ledger)
  {
    hide Apply;
    AccountsKept(l, tx);
    EndsKept(l, tx);
  }

  lemma {:induction false} StaysWellFormed(l: Ledger, txs: seq<Tx>)
    requires WellFormed(l)
    ensures WellFormed(After(l, txs))
  {
    if txs != [] {
      StaysWellFormed(l, txs[..|txs| - 1]);
      WellFormedKept(After(l, txs[..|txs| - 1]), txs[|txs| - 1]);
    }
  }
}
