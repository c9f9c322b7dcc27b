/**
 The agents' accounts and their journal. Columns are NUMERIC(10,4): every amount stored is rounded to
 four decimals, half away from zero, and must stay below a million. Money is counted here in units of
 the last decimal, 0.0001; a parameter can be any real number of units.
 */
module AgentEconomy {
  import opened Wrappers

  datatype Agent = Agent(id: string)

  const LIMIT := 10_000_000_000
  const DEFAULT_WEEKLY_TOTAL := 450000.0
  const INDIVIDUAL_SHARE := 0.6

  /** Rounding on assignment to a NUMERIC(10,4) column. */
  function Round(x: real): int {
    if x >= 0.0 then (x + 0.5).Floor else -((-x + 0.5).Floor)
  }

  /** The stored value, or a numeric overflow. */
  function Store(x: real): Option<int> {
    if -LIMIT < Round(x) < LIMIT then Some(Round(x)) else None
  }

  /** A column takes an amount exactly if it rounds to less than a million, up or down, and stores the nearest units. */
  lemma StoredExactlyWhen(x: real)
    ensures Store(x).Some? <==> -9_999_999_999.5 < x < 9_999_999_999.5
    ensures Store(x).Some? ==> -0.5 <= Store(x).value as real - x <= 0.5
    ensures Store(x).Some? && (x - Store(x).value as real == 0.5 || Store(x).value as real - x == 0.5) ==>
              if x > 0.0 then Store(x).value as real > x else (Store(x).value as real) < x
  {
  }

  /** Half a unit over a whole number of units: an odd multiple of 0.00005. */
  predicate Tie(amount: real) {
    amount - amount.Floor as real == 0.5
  }

  function Slip(amount: real): nat {
    if Tie(amount) then 1 else 0
  }

  lemma FloorIs(x: real, n: int)
    requires n as real <= x < n as real + 1.0
    ensures x.Floor == n
  {
  }

  /** Subtracting and then rounding is rounding and then subtracting, but for one unit at a tie. */
  lemma DebitRounding(b: int, amount: real)
    requires 0.0 < amount <= b as real
    ensures Round(b as real - amount) == b - Round(amount) + Slip(amount)
    ensures Round(amount) >= 0 && Round(b as real - amount) >= 0
  {
    var k := amount.Floor;
    var f := amount - k as real;
    if f < 0.5 {
      FloorIs(amount + 0.5, k);
      FloorIs(b as real - amount + 0.5, b - k);
    } else {
      FloorIs(amount + 0.5, k + 1);
      if f == 0.5 {
        FloorIs(b as real - amount + 0.5, b - k);
      } else {
        FloorIs(b as real - amount + 0.5, b - k - 1);
      }
    }
  }

  /** Adding and then rounding is rounding and then adding. */
  lemma CreditRounding(b: int, amount: real)
    requires amount > 0.0 && b >= 0
    ensures Round(b as real + amount) == b + Round(amount)
  {
    FloorIs(b as real + amount + 0.5, b + (amount + 0.5).Floor);
  }

  lemma WholeRounding(b: int, n: int)
    ensures Round(b as real + n as real) == b + n && Round(n as real) == n
  {
    FloorIs((b + n) as real + 0.5, b + n);
    FloorIs(-((b + n) as real) + 0.5, -(b + n));
    FloorIs(n as real + 0.5, n);
    FloorIs(-(n as real) + 0.5, -n);
  }

  datatype Account = Account(balance: int, allocation: int, earned: int, spent: int, transferred: int)

  datatype Kind = Allocation | ToolCost | Transfer

  /** A journal row; `amount` is signed for transfers only. */
  datatype Entry = Entry(agent: Agent, kind: Kind, amount: int, counterparty: Option<Agent>)

  /** The journal's net effect on an agent, with `tool_cost` rows counted negatively. */
  function Net(journal: seq<Entry>, agent: Agent): int {
    if journal == [] then 0
    else
      var rest, last := Net(journal[..|journal| - 1], agent), journal[|journal| - 1];
      if last.agent != agent then rest else if last.kind == ToolCost then rest - last.amount else rest + last.amount
  }

  lemma NetAfter(journal: seq<Entry>, e: Entry, agent: Agent)
    ensures Net(journal + [e], agent) ==
            Net(journal, agent) + if e.agent != agent then 0 else if e.kind == ToolCost then -e.amount else e.amount
  {
    assert (journal + [e])[..|journal|] == journal;
  }

  /** The accounts in a given order, added up. */
  function Total(accounts: map<Agent, Account>, order: seq<Agent>): int {
    if order == [] then 0
    else Total(accounts, order[1..]) + if order[0] in accounts then accounts[order[0]].balance else 0
  }

  ghost predicate Distinct(order: seq<Agent>) {
    forall i, j :: 0 <= i < j < |order| ==> order[i] != order[j]
  }

  lemma {:induction false} TotalAfter(accounts: map<Agent, Account>, order: seq<Agent>, agent: Agent, a: Account)
    requires Distinct(order) && agent in accounts
    ensures Total(accounts[agent := a], order) ==
            Total(accounts, order) + if agent in order then a.balance - accounts[agent].balance else 0
  {
    if order != [] {
      TotalAfter(accounts, order[1..], agent, a);
    }
  }

  // ---- One account ----

  /** Account, journal and opening balance agree, but for one unit for each debit at a tie. */
  predicate Books(a: Account, opening: int, slips: nat, net: int) {
    && a.balance == opening + a.earned - a.spent - a.transferred + slips
    && a.balance == opening + net + slips
    && a.balance >= 0 && a.allocation >= 0
  }

  /** A deduction or the sending side of a transfer; None on overflow. */
  function Debited(a: Account, amount: real, sending: bool): Option<Account> {
    var balance := Store(a.balance as real - amount);
    var counter := Store((if sending then a.transferred else a.spent) as real + amount);
    if balance.None? || counter.None? then None
    else if sending then Some(a.(balance := balance.value, transferred := counter.value))
    else Some(a.(balance := balance.value, spent := counter.value))
  }

  function Credited(a: Account, amount: real): Option<Account> {
    var balance, earned := Store(a.balance as real + amount), Store(a.earned as real + amount);
    if balance.None? || earned.None? then None else Some(a.(balance := balance.value, earned := earned.value))
  }

  predicate Counters(a: Account) {
    a.earned >= 0 && a.spent >= 0 && a.transferred >= 0
  }

  lemma DebitKeepsBooks(a: Account, opening: int, slips: nat, net: int, amount: real, sending: bool)
    requires Books(a, opening, slips, net) && Counters(a) && 0.0 < amount <= a.balance as real
    requires Debited(a, amount, sending).Some?
    ensures var b := Debited(a, amount, sending).value;
            && Books(b, opening, slips + Slip(amount), net - Round(amount)) && Counters(b)
            && b.balance == a.balance - Round(amount) + Slip(amount)
  {
    DebitRounding(a.balance, amount);
    CreditRounding(if sending then a.transferred else a.spent, amount);
  }

  /** A debit keeps an account's equation exactly when its amount is no tie. */
  lemma DebitBalancesExactlyWhen(a: Account, opening: int, net: int, amount: real, sending: bool)
    requires Books(a, opening, 0, net) && Counters(a) && 0.0 < amount <= a.balance as real
    requires Debited(a, amount, sending).Some?
    ensures var b := Debited(a, amount, sending).value;
            b.balance == opening + b.earned - b.spent - b.transferred <==> !Tie(amount)
  {
    DebitKeepsBooks(a, opening, 0, net, amount, sending);
  }

  lemma CreditKeepsBooks(a: Account, opening: int, slips: nat, net: int, amount: real)
    requires Books(a, opening, slips, net) && Counters(a) && amount > 0.0 && Credited(a, amount).Some?
    ensures var b := Credited(a, amount).value;
            Books(b, opening, slips, net + Round(amount)) && Counters(b) && b.balance == a.balance + Round(amount)
  {
    CreditRounding(a.balance, amount);
    CreditRounding(a.earned, amount);
    assert Round(amount) >= 0;
  }

  lemma AllocationKeepsBooks(a: Account, opening: int, slips: nat, net: int)
    requires Books(a, opening, slips, net) && Counters(a) && Credited(a, a.allocation as real).Some?
    ensures var b := Credited(a, a.allocation as real).value;
            Books(b, opening, slips, net + a.allocation) && Counters(b)
  {
    WholeRounding(a.balance, a.allocation);
    WholeRounding(a.earned, a.allocation);
  }

  // ---- The whole ledger ----

  /** What the books remember of an agent: its opening balance and its debits at a tie. */
  datatype Note = Note(opening: int, slips: nat)

  ghost predicate SoundFor(accounts: map<Agent, Account>, journal: seq<Entry>, notes: map<Agent, Note>, a: Agent) {
    if a in accounts then
      && a in notes && Books(accounts[a], notes[a].opening, notes[a].slips, Net(journal, a))
      && Counters(accounts[a])
    else a !in notes && Net(journal, a) == 0
  }

  ghost predicate Sound(accounts: map<Agent, Account>, journal: seq<Entry>, notes: map<Agent, Note>) {
    forall a :: SoundFor(accounts, journal, notes, a)
  }

  function Signed(e: Entry): int {
    if e.kind == ToolCost then -e.amount else e.amount
  }

  function Noted(notes: map<Agent, Note>, agent: Agent, slip: nat): map<Agent, Note>
    requires agent in notes
  {
    notes[agent := Note(notes[agent].opening, notes[agent].slips + slip)]
  }

  /** Writing one account and its journal row keeps the ledger sound if it keeps that account's books. */
  lemma PostingKeepsSound(accounts: map<Agent, Account>, journal: seq<Entry>, notes: map<Agent, Note>, a: Account,
                          e: Entry, slip: nat)
    requires Sound(accounts, journal, notes) && e.agent in accounts && e.agent in notes
    requires Books(a, notes[e.agent].opening, notes[e.agent].slips + slip, Net(journal, e.agent) + Signed(e))
             && Counters(a)
    ensures Sound(accounts[e.agent := a], journal + [e], Noted(notes, e.agent, slip))
  {
    var after, rows, noted := accounts[e.agent := a], journal + [e], Noted(notes, e.agent, slip);
    forall other ensures SoundFor(after, rows, noted, other) {
      assert SoundFor(accounts, journal, notes, other);
      NetAfter(journal, e, other);
    }
  }

  lemma DebitPosted(accounts: map<Agent, Account>, journal: seq<Entry>, notes: map<Agent, Note>, a: Account,
                    e: Entry, amount: real)
    requires Sound(accounts, journal, notes) && e.agent in accounts && Signed(e) == -Round(amount)
    requires 0.0 < amount <= accounts[e.agent].balance as real
    requires Debited(accounts[e.agent], amount, e.kind == Transfer) == Some(a)
    ensures e.agent in notes && Sound(accounts[e.agent := a], journal + [e], Noted(notes, e.agent, Slip(amount)))
    ensures a.balance == accounts[e.agent].balance - Round(amount) + Slip(amount)
    ensures e.kind == ToolCost ==>
              a == accounts[e.agent].(balance := a.balance, spent := accounts[e.agent].spent + Round(amount))
    ensures e.kind == Transfer ==>
              a == accounts[e.agent].(balance := a.balance,
                                      transferred := accounts[e.agent].transferred + Round(amount))
  {
    assert SoundFor(accounts, journal, notes, e.agent);
    var was, note := accounts[e.agent], notes[e.agent];
    DebitKeepsBooks(was, note.opening, note.slips, Net(journal, e.agent), amount, e.kind == Transfer);
    CreditRounding(if e.kind == Transfer then was.transferred else was.spent, amount);
    PostingKeepsSound(accounts, journal, notes, a, e, Slip(amount));
  }

  lemma CreditPosted(accounts: map<Agent, Account>, journal: seq<Entry>, notes: map<Agent, Note>, a: Account,
                     e: Entry, amount: real)
    requires Sound(accounts, journal, notes) && e.agent in accounts && Signed(e) == Round(amount)
    requires amount > 0.0 || amount == accounts[e.agent].allocation as real
    requires Credited(accounts[e.agent], amount) == Some(a)
    ensures Sound(accounts[e.agent := a], journal + [e], notes)
    ensures a == accounts[e.agent].(balance := accounts[e.agent].balance + Round(amount),
                                    earned := accounts[e.agent].earned + Round(amount))
  {
    assert SoundFor(accounts, journal, notes, e.agent);
    var was, note := accounts[e.agent], notes[e.agent];
    if amount > 0.0 {
      CreditKeepsBooks(was, note.opening, note.slips, Net(journal, e.agent), amount);
      CreditRounding(was.balance, amount);
      CreditRounding(was.earned, amount);
    } else {
      AllocationKeepsBooks(was, note.opening, note.slips, Net(journal, e.agent));
      WholeRounding(was.balance, was.allocation);
      WholeRounding(was.earned, was.allocation);
    }
    PostingKeepsSound(accounts, journal, notes, a, e, 0);
    assert Noted(notes, e.agent, 0) == notes;
  }

  /** How an operation on the database ends: its answer, or an exception that rolls it back. */
  datatype Outcome = Answer(ok: bool) | NoReceiver | Overflow

  class AgentEconomyManager {
    var accounts: map<Agent, Account>
    var journal: seq<Entry>
    ghost var notes: map<Agent, Note>

    constructor ()
      ensures accounts == map[] && journal == [] && Valid()
    {
      accounts, journal, notes := map[], [], map[];
    }

    ghost predicate Valid()
      reads this
    {
      Sound(accounts, journal, notes)
    }

    /**
     The account equation and the journal equation, each exactly when the agent has never been debited
     at a tie.
     */
    lemma BooksBalanceExactlyWhen(agent: Agent)
      requires Valid() && agent in accounts
      ensures agent in notes
      ensures var a := accounts[agent];
              && (a.balance == notes[agent].opening + a.earned - a.spent - a.transferred <==> notes[agent].slips == 0)
              && (a.balance == notes[agent].opening + Net(journal, agent) <==> notes[agent].slips == 0)
              && a.balance >= 0
    {
      assert SoundFor(accounts, journal, notes, agent);
    }

    /** The opening balance of an account: as given, or the weekly share over the accounts there are. */
    function Opening(initial: Option<real>): (opening: real)
      reads this
      ensures initial.Some? ==> opening == initial.value
      ensures initial.None? ==> opening * (if accounts == map[] then 1.0 else |accounts| as real) == 270000.0
    {
      if initial.Some? then initial.value
      else DEFAULT_WEEKLY_TOTAL * INDIVIDUAL_SHARE / if |accounts| == 0 then 1.0 else |accounts| as real
    }

    /** An account is opened once; a second attempt changes nothing. */
    method CreateAccount(agent: Agent, initial: Option<real>) returns (outcome: Outcome)
      requires Valid() && (initial.Some? ==> initial.value >= 0.0)
      modifies this
      ensures Valid() && journal == old(journal)
      ensures outcome == if old(Store(Opening(initial))).None? then Overflow else Answer(true)
      ensures agent in old(accounts) || outcome == Overflow ==> accounts == old(accounts) && notes == old(notes)
      ensures agent !in old(accounts) && outcome != Overflow ==>
                var units := old(Round(Opening(initial)));
                && accounts == old(accounts)[agent := Account(units, units, 0, 0, 0)]
                && notes == old(notes)[agent := Note(units, 0)]
    {
      var units := Store(Opening(initial));
      if units.None? {
        return Overflow;
      }
      outcome := Answer(true);
      if agent !in accounts {
        ghost var before, remembered := accounts, notes;
        accounts := accounts[agent := Account(units.value, units.value, 0, 0, 0)];
        notes := notes[agent := Note(units.value, 0)];
        forall a ensures SoundFor(accounts, journal, notes, a) {
          assert SoundFor(before, journal, remembered, a);
        }
      }
    }

    /** The part of the weekly total that each of `n` agents gets. */
    static function ShareOf(weeklyTotal: real, n: nat): (share: real)
      requires weeklyTotal >= 0.0 && n > 0
      ensures share >= 0.0 && share * n as real == weeklyTotal * 0.6
    {
      weeklyTotal * INDIVIDUAL_SHARE / n as real
    }

    /** Accounts that were there are as they were; the others are of these agents, opened with this much. */
    ghost predicate Opened(before: map<Agent, Account>, agents: seq<Agent>, units: int)
      reads `accounts
    {
      && (forall a :: a in before ==> a in accounts && accounts[a] == before[a])
      && (forall a :: a in accounts && a !in before ==>
            a in agents && accounts[a].balance == accounts[a].allocation == units)
    }

    /** Opens the account of one of the agents; `before` are the accounts that were there at the start. */
    method OpenOne(agents: seq<Agent>, i: nat, share: real, ghost before: map<Agent, Account>)
      returns (outcome: Outcome)
      requires Valid() && i < |agents| && share >= 0.0 && Opened(before, agents, Round(share))
      modifies this
      ensures Valid() && journal == old(journal) && Opened(before, agents, Round(share))
      ensures forall a :: a in old(accounts) ==> a in accounts
      ensures outcome != Overflow ==> agents[i] in accounts
    {
      outcome := CreateAccount(agents[i], Some(share));
    }

    /** Every listed agent has an account afterwards; those there were stay as they are. */
    method InitializeAccounts(agents: seq<Agent>, weeklyTotal: real) returns (outcome: Outcome)
      requires Valid() && weeklyTotal >= 0.0
      modifies this
      ensures Valid() && journal == old(journal)
      ensures agents == [] ==> accounts == old(accounts)
      ensures agents != [] ==> Opened(old(accounts), agents, Round(ShareOf(weeklyTotal, |agents|)))
      ensures outcome != Overflow ==> forall i :: 0 <= i < |agents| ==> agents[i] in accounts
    {
      outcome := Answer(true);
      if agents == [] {
        return;
      }
      var share := ShareOf(weeklyTotal, |agents|);
      var i := 0;
      while i < |agents|
        invariant 0 <= i <= |agents| && Valid() && journal == old(journal)
        invariant Opened(old(accounts), agents, Round(share))
        invariant forall k :: 0 <= k < i ==> agents[k] in accounts
      {
        var created := OpenOne(agents, i, share, old(accounts));
        if created == Overflow {
          return Overflow;
        }
        i := i + 1;
      }
    }

    /**
     A deduction succeeds exactly when the balance covers it, if nothing overflows. It lowers the
     balance by the journalled amount, but for one unit at a tie.
     */
    method DeductCost(agent: Agent, amount: real) returns (outcome: Outcome)
      requires Valid()
      modifies this
      ensures Valid()
      ensures amount <= 0.0 ==> outcome == Answer(true)
      ensures outcome == Overflow ==>
                agent in accounts && (Debited(accounts[agent], amount, false).None? || Store(amount).None?)
      ensures outcome != Overflow ==>
                (outcome == Answer(true)
                 <==> amount <= 0.0 || (agent in old(accounts) && amount <= old(accounts)[agent].balance as real))
      ensures outcome != Answer(true) || amount <= 0.0 ==>
                accounts == old(accounts) && journal == old(journal) && notes == old(notes)
      ensures outcome == Answer(true) && amount > 0.0 ==>
                && agent in old(notes) && agent in accounts && accounts == old(accounts)[agent := accounts[agent]]
                && accounts[agent].balance == old(accounts)[agent].balance - Round(amount) + Slip(amount)
                && accounts[agent].spent == old(accounts)[agent].spent + Round(amount)
                && accounts[agent] == old(accounts)[agent].(balance := accounts[agent].balance,
                                                            spent := accounts[agent].spent)
                && journal == old(journal) + [Entry(agent, ToolCost, Round(amount), None)]
                && notes == Noted(old(notes), agent, Slip(amount))
    {
      if amount <= 0.0 {
        return Answer(true);
      }
      if agent !in accounts || (accounts[agent].balance as real) < amount {
        return Answer(false);
      }
      var a, row := Debited(accounts[agent], amount, false), Store(amount);
      if a.None? || row.None? {
        return Overflow;
      }
      var entry := Entry(agent, ToolCost, row.value, None);
      DebitPosted(accounts, journal, notes, a.value, entry, amount);
      accounts, journal, notes := accounts[agent := a.value], journal + [entry], Noted(notes, agent, Slip(amount));
      outcome := Answer(true);
    }

    /** Some column of the two accounts or the journal cannot take the transfer. */
    predicate CanOverflow(sender: Agent, receiver: Agent, amount: real)
      reads this
    {
      sender in accounts
      && var debited := Debited(accounts[sender], amount, true);
         || debited.None?
         || (receiver in accounts
             && (Credited(if receiver == sender then debited.value else accounts[receiver], amount).None?
                 || Store(amount).None? || Store(-amount).None?))
    }

    /**
     A transfer succeeds exactly when the sender's balance covers a positive amount and the receiver
     exists, if nothing overflows; otherwise nothing changes. The total over all accounts is conserved,
     but for one unit at a tie, for a transfer to oneself too.
     */
    method TransferFunds(sender: Agent, receiver: Agent, amount: real, ghost order: seq<Agent>)
      returns (outcome: Outcome)
      requires Valid() && Distinct(order) && forall a :: a in accounts ==> a in order
      modifies this
      ensures Valid()
      ensures outcome != Overflow ==>
                var able := amount > 0.0 && sender in old(accounts) && amount <= old(accounts)[sender].balance as real;
                outcome == if !able then Answer(false)
                           else if receiver !in old(accounts) then NoReceiver else Answer(true)
      ensures outcome == Overflow ==> CanOverflow(sender, receiver, amount)
      ensures outcome != Answer(true) ==> accounts == old(accounts) && journal == old(journal) && notes == old(notes)
      ensures outcome == Answer(true) ==>
                && Total(accounts, order) == Total(old(accounts), order) + Slip(amount)
                && journal == old(journal) + [Entry(sender, Transfer, -Round(amount), Some(receiver)),
                                              Entry(receiver, Transfer, Round(amount), Some(sender))]
                && sender in old(notes) && notes == Noted(old(notes), sender, Slip(amount))
                && sender in accounts && receiver in accounts
                && accounts == old(accounts)[sender := accounts[sender]][receiver := accounts[receiver]]
                && (sender != receiver ==>
                      && accounts[sender].balance == old(accounts)[sender].balance - Round(amount) + Slip(amount)
                      && accounts[receiver].balance == old(accounts)[receiver].balance + Round(amount)
                      && accounts[sender] == old(accounts)[sender].(
                           balance := accounts[sender].balance,
                           transferred := old(accounts)[sender].transferred + Round(amount))
                      && accounts[receiver] == old(accounts)[receiver].(
                           balance := accounts[receiver].balance,
                           earned := old(accounts)[receiver].earned + Round(amount)))
                && (sender == receiver ==>
                      accounts[sender] == old(accounts)[sender].(
                        balance := old(accounts)[sender].balance + Slip(amount),
                        transferred := old(accounts)[sender].transferred + Round(amount),
                        earned := old(accounts)[sender].earned + Round(amount)))
    {
      if amount <= 0.0 || sender !in accounts || (accounts[sender].balance as real) < amount {
        return Answer(false);
      }
      var debited := Debited(accounts[sender], amount, true);
      if debited.None? {
        return Overflow;
      }
      if receiver !in accounts {
        return NoReceiver;
      }
      var midway := accounts[sender := debited.value];
      var credited, sent, received := Credited(midway[receiver], amount), Store(-amount), Store(amount);
      if credited.None? || sent.None? || received.None? {
        return Overflow;
      }
      var out := Entry(sender, Transfer, sent.value, Some(receiver));
      var back := Entry(receiver, Transfer, received.value, Some(sender));
      DebitPosted(accounts, journal, notes, debited.value, out, amount);
      CreditPosted(midway, journal + [out], Noted(notes, sender, Slip(amount)), credited.value, back, amount);
      TotalAfter(accounts, order, sender, debited.value);
      TotalAfter(midway, order, receiver, credited.value);
      assert journal + [out, back] == journal + [out] + [back];
      accounts, journal := midway[receiver := credited.value], journal + [out, back];
      notes := Noted(notes, sender, Slip(amount));
      outcome := Answer(true);
    }

    /**
     Every selected agent is credited its allocation once, or, on overflow, none is. `order` is the
     order in which the database returns the accounts; an empty selection means all.
     */
    method WeeklyAllocation(order: seq<Agent>, selection: seq<Agent>) returns (outcome: Outcome)
      requires Valid() && Distinct(order) && forall a :: a in order <==> a in accounts
      modifies this
      ensures Valid() && notes == old(notes)
      ensures outcome == Overflow ==> accounts == old(accounts) && journal == old(journal)
      ensures outcome == Overflow ==>
                exists i :: 0 <= i < |order| && (selection == [] || order[i] in selection)
                            && Unpayable(old(accounts)[order[i]])
      ensures outcome != Overflow ==>
                forall i :: 0 <= i < |order| ==>
                  && order[i] in accounts
                  && Paid(old(accounts)[order[i]], accounts[order[i]], selection == [] || order[i] in selection)
    {
      ghost var was := accounts;
      var start, before := accounts, journal;
      var i := 0;
      while i < |order|
        invariant 0 <= i <= |order| && Valid() && notes == old(notes)
        invariant forall k :: 0 <= k < |order| ==> order[k] in accounts
        invariant forall k :: i <= k < |order| ==> accounts[order[k]] == was[order[k]]
        invariant forall k :: 0 <= k < i ==>
                    Paid(was[order[k]], accounts[order[k]], selection == [] || order[k] in selection)
      {
        if selection == [] || order[i] in selection {
          var paid := Pay(order[i]);
          if !paid {
            accounts, journal := start, before;
            return Overflow;
          }
        }
        i := i + 1;
      }
      outcome := Answer(true);
    }

    /** One row of the weekly allocation; false on overflow. */
    method Pay(agent: Agent) returns (paid: bool)
      requires Valid() && agent in accounts
      modifies `accounts, `journal
      ensures Valid()
      ensures paid <==> !Unpayable(old(accounts)[agent])
      ensures paid ==>
                && agent in accounts && accounts == old(accounts)[agent := accounts[agent]]
                && Paid(old(accounts)[agent], accounts[agent], true)
                && journal == old(journal) + [Entry(agent, Allocation, old(accounts)[agent].allocation, None)]
    {
      var units := accounts[agent].allocation;
      var a, row := Credited(accounts[agent], units as real), Store(units as real);
      if a.None? || row.None? {
        return false;
      }
      WholeRounding(0, units);
      var entry := Entry(agent, Allocation, row.value, None);
      CreditPosted(accounts, journal, notes, a.value, entry, units as real);
      accounts, journal := accounts[agent := a.value], journal + [entry];
      paid := true;
    }
  }

  predicate Unpayable(a: Account) {
    Credited(a, a.allocation as real).None? || Store(a.allocation as real).None?
  }

  predicate Paid(before: Account, after: Account, selected: bool) {
    var gain := if selected then before.allocation else 0;
    after == before.(balance := before.balance + gain, earned := before.earned + gain)
  }
}
