/**
 * The workspace credit ledger: a credit balance per workspace member (the
 * `credit` column of the workspace-user row, which may be unset) and an
 * append-only log of credit transactions. A database transaction is a
 * function from the old ledger to a new ledger, or to an error with the old
 * ledger unchanged.
 */
module CreditLedger {
  import opened Wrappers

  /** A workspace-user row is identified by its workspace and its user. */
  datatype Member = Member(workspaceId: string, userId: string)

  /** `WorkspaceCreditTransactionType`. */
  datatype Kind = Topup | Consume | Adjust

  /** A `workspace_credit_transaction` row; `amount` is positive for gains and negative for consumption. */
  datatype Txn = Txn(member: Member, kind: Kind, amount: int, balance: int, description: string)

  /**
   * The ledger: `credit` has a key for every existing workspace-user row, with
   * `None` for an unset credit; `log` holds the transactions, oldest first.
   */
  datatype Ledger = Ledger(credit: map<Member, Option<int>>, log: seq<Txn>)

  datatype Status = BadRequest | NotFound

  /** The HTTP status code an error carries. */
  function Code(s: Status): int {
    match s
    case BadRequest => 400
    case NotFound => 404
  }

  const InvalidAmount := "Invalid credit amount"
  const MemberNotFound := "Workspace User Not Found"
  const DefaultDescription := "Manual top-up"

  /** `workspaceUser.credit ?? 0`. */
  function Balance(l: Ledger, m: Member): int
    requires m in l.credit
  {
    if l.credit[m].Some? then l.credit[m].value else 0
  }

  // ---------------------------------------------------------------------------
  // Top-up

  /** `Number.isInteger(x)`. */
  predicate IsInteger(x: real) {
    x == x.Floor as real
  }

  datatype TopupResult =
    | Credited(credit: int, txn: Txn)
    | Failed(status: Status, message: string)

  /** `topupCredit(workspaceId, userId, amount, description)`: the ledger afterwards, and what the call returns or throws. */
  function TopupCredit(l: Ledger, m: Member, amount: real, description: Option<string>): (r: (Ledger, TopupResult))
    ensures r.1.Failed? ==> r.0 == l
    ensures r.1.Credited? ==> m in l.credit && m in r.0.credit && r.0.credit[m] == Some(r.1.credit)
  {
    if !IsInteger(amount) || amount <= 0.0 then (l, Failed(BadRequest, InvalidAmount))
    else if m !in l.credit then (l, Failed(NotFound, MemberNotFound))
    else
      var credit := Balance(l, m) + amount.Floor;
      var text := if description.Some? && description.value != "" then description.value else DefaultDescription;
      var txn := Txn(m, Topup, amount.Floor, credit, text);
      (Ledger(l.credit[m := Some(credit)], l.log + [txn]), Credited(credit, txn))
  }

  /** An amount that is not a positive integer is refused with 400 before the member is even looked up. */
  lemma TopupRejectsBadAmount(l: Ledger, m: Member, amount: real, description: Option<string>)
    requires !IsInteger(amount) || amount <= 0.0
    ensures var r := TopupCredit(l, m, amount, description);
            r.1 == Failed(BadRequest, InvalidAmount) && Code(r.1.status) == 400 && r.0 == l
  {
  }

  /** A valid amount for a member without a workspace-user row is refused with 404 and nothing changes. */
  lemma TopupMissingMember(l: Ledger, m: Member, amount: real, description: Option<string>)
    requires IsInteger(amount) && amount > 0.0 && m !in l.credit
    ensures var r := TopupCredit(l, m, amount, description);
            r.1 == Failed(NotFound, MemberNotFound) && Code(r.1.status) == 404 && r.0 == l
  {
  }

  /**
   * A successful top-up raises the member's balance by the amount, touches no
   * other member, and appends exactly one `topup` transaction recording the
   * amount and the new balance; the description defaults to `Manual top-up`.
   */
  lemma TopupSucceeds(l: Ledger, m: Member, amount: int, description: Option<string>)
    requires amount > 0 && m in l.credit
    ensures var (l', r) := TopupCredit(l, m, amount as real, description);
            && r.Credited?
            && r.credit == Balance(l, m) + amount
            && Balance(l', m) == r.credit
            && (forall n :: n in l.credit && n != m ==> n in l'.credit && l'.credit[n] == l.credit[n])
            && l'.credit.Keys == l.credit.Keys
            && l'.log == l.log + [r.txn]
            && r.txn == Txn(m, Topup, amount, r.credit, r.txn.description)
            && (description.None? || description == Some("") ==> r.txn.description == DefaultDescription)
            && (description.Some? && description.value != "" ==> r.txn.description == description.value)
  {
    assert (amount as real).Floor == amount;
  }

  /** The credit of a member never goes down through a top-up; it goes up by the amount on success. */
  lemma TopupMonotone(l: Ledger, m: Member, amount: real, description: Option<string>)
    requires m in l.credit
    ensures var (l', r) := TopupCredit(l, m, amount, description);
            m in l'.credit && Balance(l', m) >= Balance(l, m)
            && (r.Credited? ==> Balance(l', m) == Balance(l, m) + r.txn.amount && r.txn.amount > 0)
  {
  }

  // ---------------------------------------------------------------------------
  // The log and the balances agree

  /** How many transactions of `m` the log holds. */
  function CountOf(log: seq<Txn>, m: Member): (r: nat)
    ensures r <= |log|
    decreases |log|
  {
    if |log| == 0 then 0 else (if log[0].member == m then 1 else 0) + CountOf(log[1..], m)
  }

  lemma {:induction false} CountSnoc(log: seq<Txn>, t: Txn, m: Member)
    ensures CountOf(log + [t], m) == CountOf(log, m) + (if t.member == m then 1 else 0)
    decreases |log|
  {
    if |log| > 0 {
      assert (log + [t])[1..] == log[1..] + [t];
      CountSnoc(log[1..], t, m);
    }
  }

  /**
   * The transactions of `m`, newest first: every one of them and nothing
   * else, and the first is the last one of `m` in the log.
   */
  function NewestFirst(log: seq<Txn>, m: Member): (r: seq<Txn>)
    ensures |r| == CountOf(log, m)
    ensures forall i :: 0 <= i < |r| ==> r[i].member == m && r[i] in log
    ensures forall j :: 0 <= j < |log| && log[j].member == m ==> log[j] in r
    ensures |r| > 0 ==> exists j :: 0 <= j < |log| && r[0] == log[j] && forall k :: j < k < |log| ==> log[k].member != m
    decreases |log|
  {
    if |log| == 0 then []
    else
      var init := log[..|log| - 1];
      var last := log[|log| - 1];
      var rest := NewestFirst(init, m);
      assert init + [last] == log;
      CountSnoc(init, last, m);
      var r := (if last.member == m then [last] else []) + rest;
      SnocMembers(init, last, m, rest);
      SnocComplete(init, last, m, rest);
      SnocHead(init, last, m, rest);
      r
  }

  lemma SnocMembers(init: seq<Txn>, last: Txn, m: Member, rest: seq<Txn>)
    requires forall i :: 0 <= i < |rest| ==> rest[i].member == m && rest[i] in init
    ensures var r := (if last.member == m then [last] else []) + rest;
            forall i :: 0 <= i < |r| ==> r[i].member == m && r[i] in init + [last]
  {
  }

  lemma SnocComplete(init: seq<Txn>, last: Txn, m: Member, rest: seq<Txn>)
    requires forall j :: 0 <= j < |init| && init[j].member == m ==> init[j] in rest
    ensures var r := (if last.member == m then [last] else []) + rest;
            var log := init + [last];
            forall j :: 0 <= j < |log| && log[j].member == m ==> log[j] in r
  {
    var log := init + [last];
    assert forall j :: 0 <= j < |init| ==> log[j] == init[j];
  }

  lemma SnocHead(init: seq<Txn>, last: Txn, m: Member, rest: seq<Txn>)
    requires |rest| > 0 ==> exists j :: 0 <= j < |init| && rest[0] == init[j] && forall k :: j < k < |init| ==> init[k].member != m
    ensures var r := (if last.member == m then [last] else []) + rest;
            var log := init + [last];
            |r| > 0 ==> exists j :: 0 <= j < |log| && r[0] == log[j] && forall k :: j < k < |log| ==> log[k].member != m
  {
    var r := (if last.member == m then [last] else []) + rest;
    var log := init + [last];
    if last.member == m {
      assert r[0] == log[|log| - 1];
    } else if |r| > 0 {
      var j :| 0 <= j < |init| && rest[0] == init[j] && forall k :: j < k < |init| ==> init[k].member != m;
      assert r[0] == log[j];
      assert forall k :: j < k < |log| ==> log[k].member != m by {
        assert forall k :: 0 <= k < |init| ==> log[k] == init[k];
      }
    }
  }

  /**
   * The log and the balances agree: the newest transaction of every member
   * records that member's current balance, and each transaction's balance is
   * the one before it plus its amount.
   */
  predicate Consistent(l: Ledger) {
    NewestIsBalance(l) && Owned(l) && AllChained(l)
  }

  /** The newest transaction of every member records that member's balance. */
  predicate NewestIsBalance(l: Ledger) {
    forall m :: m in l.credit && |NewestFirst(l.log, m)| > 0 ==> NewestFirst(l.log, m)[0].balance == Balance(l, m)
  }

  /** Every transaction belongs to an existing member. */
  predicate Owned(l: Ledger) {
    forall t :: t in l.log ==> t.member in l.credit
  }

  /** Every member's transactions chain. */
  predicate AllChained(l: Ledger) {
    forall m :: m in l.credit ==> Chained(NewestFirst(l.log, m))
  }

  /** Newest first, each balance is the next older balance plus this amount. */
  predicate Chained(ts: seq<Txn>) {
    forall i :: 0 <= i < |ts| - 1 ==> ts[i].balance == ts[i + 1].balance + ts[i].amount
  }

  lemma ChainedCons(t: Txn, ts: seq<Txn>)
    requires Chained(ts) && (|ts| > 0 ==> t.balance == ts[0].balance + t.amount)
    ensures Chained([t] + ts)
  {
    var us := [t] + ts;
    forall i | 0 <= i < |us| - 1 ensures us[i].balance == us[i + 1].balance + us[i].amount {
      if i > 0 {
        assert us[i] == ts[i - 1] && us[i + 1] == ts[i];
      }
    }
  }

  /** An empty log is consistent with any balances. */
  lemma EmptyLogConsistent(credit: map<Member, Option<int>>)
    ensures Consistent(Ledger(credit, []))
  {
  }

  lemma NewestFirstAppend(log: seq<Txn>, t: Txn, m: Member)
    ensures NewestFirst(log + [t], m) == (if t.member == m then [t] else []) + NewestFirst(log, m)
  {
    assert (log + [t])[..|log|] == log;
  }

  /** Recording a transaction that moves a member's balance by its amount keeps the ledger consistent. */
  lemma AppendKeepsConsistent(l: Ledger, m: Member, t: Txn)
    requires Consistent(l) && m in l.credit && t.member == m && t.balance == Balance(l, m) + t.amount
    ensures Consistent(Ledger(l.credit[m := Some(t.balance)], l.log + [t]))
  {
    AppendNewest(l, m, t);
    AppendChained(l, m, t);
    var l' := Ledger(l.credit[m := Some(t.balance)], l.log + [t]);
    assert Owned(l');
  }

  lemma AppendNewest(l: Ledger, m: Member, t: Txn)
    requires NewestIsBalance(l) && m in l.credit && t.member == m
    ensures NewestIsBalance(Ledger(l.credit[m := Some(t.balance)], l.log + [t]))
  {
    var l' := Ledger(l.credit[m := Some(t.balance)], l.log + [t]);
    forall n | n in l'.credit && |NewestFirst(l'.log, n)| > 0
      ensures NewestFirst(l'.log, n)[0].balance == Balance(l', n)
    {
      NewestFirstAppend(l.log, t, n);
    }
  }

  lemma AppendChained(l: Ledger, m: Member, t: Txn)
    requires NewestIsBalance(l) && AllChained(l) && m in l.credit && t.member == m && t.balance == Balance(l, m) + t.amount
    ensures AllChained(Ledger(l.credit[m := Some(t.balance)], l.log + [t]))
  {
    var l' := Ledger(l.credit[m := Some(t.balance)], l.log + [t]);
    forall n | n in l'.credit ensures Chained(NewestFirst(l'.log, n)) {
      AppendChainedOne(l.log, t, n, Balance(l, m));
    }
  }

  /** One member's chain after recording a transaction. */
  lemma AppendChainedOne(log: seq<Txn>, t: Txn, n: Member, balance: int)
    requires Chained(NewestFirst(log, n))
    requires t.member == n && |NewestFirst(log, n)| > 0 ==> NewestFirst(log, n)[0].balance == balance
    requires t.balance == balance + t.amount
    ensures Chained(NewestFirst(log + [t], n))
  {
    NewestFirstAppend(log, t, n);
    if t.member == n {
      ChainedCons(t, NewestFirst(log, n));
    }
  }

  /** Top-ups keep the log consistent with the balances. */
  lemma TopupKeepsConsistent(l: Ledger, m: Member, amount: real, description: Option<string>)
    requires Consistent(l)
    ensures Consistent(TopupCredit(l, m, amount, description).0)
  {
    var (l', r) := TopupCredit(l, m, amount, description);
    if r.Credited? {
      AppendKeepsConsistent(l, m, r.txn);
    }
  }

  /** Top-ups of one member in turn. */
  function Topups(l: Ledger, m: Member, amounts: seq<int>): (r: Ledger)
    decreases |amounts|
  {
    if |amounts| == 0 then l
    else Topups(TopupCredit(l, m, amounts[0] as real, None).0, m, amounts[1..])
  }

  function Total(amounts: seq<int>): int
    decreases |amounts|
  {
    if |amounts| == 0 then 0 else amounts[0] + Total(amounts[1..])
  }

  /** Replaying positive top-ups adds their total to the balance and logs one transaction each. */
  lemma {:induction false} TopupsReplay(l: Ledger, m: Member, amounts: seq<int>)
    requires m in l.credit && forall i :: 0 <= i < |amounts| ==> amounts[i] > 0
    ensures m in Topups(l, m, amounts).credit
    ensures Balance(Topups(l, m, amounts), m) == Balance(l, m) + Total(amounts)
    ensures |Topups(l, m, amounts).log| == |l.log| + |amounts|
    decreases |amounts|
  {
    if |amounts| > 0 {
      TopupSucceeds(l, m, amounts[0], None);
      TopupsReplay(TopupCredit(l, m, amounts[0] as real, None).0, m, amounts[1..]);
    }
  }

  // ---------------------------------------------------------------------------
  // Queries

  /** What a read-only query returns or throws. */
  datatype Result<T> = Ok(value: T) | Err(status: Status, message: string)

  datatype Summary = Summary(member: Member, credit: int)

  /** `getCreditSummary(workspaceId, userId)`. */
  function GetCreditSummary(l: Ledger, m: Member): (r: Result<Summary>)
    ensures r.Ok? <==> m in l.credit
    ensures r.Ok? ==> r.value.credit == Balance(l, m) && r.value.member == m
    ensures r.Err? ==> r.status == NotFound && r.message == MemberNotFound
  {
    if m !in l.credit then Err(NotFound, MemberNotFound) else Ok(Summary(m, Balance(l, m)))
  }

  /** `Number.isInteger(limit) ? Math.max(1, Math.min(limit, 500)) : 100`. */
  function NormalizeLimit(limit: real): (n: int)
    ensures 1 <= n <= 500
    ensures IsInteger(limit) && 1.0 <= limit <= 500.0 ==> n as real == limit
    ensures IsInteger(limit) && limit < 1.0 ==> n == 1
    ensures IsInteger(limit) && limit > 500.0 ==> n == 500
    ensures !IsInteger(limit) ==> n == 100
  {
    if IsInteger(limit) then
      var k := limit.Floor;
      if k > 500 then 500 else if k < 1 then 1 else k
    else 100
  }

  datatype History = History(member: Member, credit: int, transactions: seq<Txn>)

  /** `getTransactions(workspaceId, userId, limit = 100)`; `None` stands for an omitted limit. */
  function GetTransactions(l: Ledger, m: Member, limit: Option<real>): (r: Result<History>)
    ensures r.Ok? <==> m in l.credit
    ensures r.Err? ==> r.status == NotFound && r.message == MemberNotFound
    ensures r.Ok? ==> r.value.credit == Balance(l, m)
    ensures r.Ok? ==> var n := NormalizeLimit(limit.GetOr(100.0));
                      |r.value.transactions| == if |NewestFirst(l.log, m)| < n then |NewestFirst(l.log, m)| else n
    ensures r.Ok? ==> forall i :: 0 <= i < |r.value.transactions| ==> r.value.transactions[i] == NewestFirst(l.log, m)[i]
    ensures r.Ok? ==> forall i :: 0 <= i < |r.value.transactions| ==>
                        r.value.transactions[i].member == m && r.value.transactions[i] in l.log
    ensures r.Ok? ==> (|r.value.transactions| == 0 <==> CountOf(l.log, m) == 0)
  {
    if m !in l.credit then Err(NotFound, MemberNotFound)
    else
      var all := NewestFirst(l.log, m);
      var n := NormalizeLimit(limit.GetOr(100.0));
      Ok(History(m, Balance(l, m), if |all| <= n then all else all[..n]))
  }

  /** Without a limit at most 100 transactions come back, all of the member, newest first. */
  lemma DefaultLimit(l: Ledger, m: Member)
    requires m in l.credit
    ensures var r := GetTransactions(l, m, None);
            r.Ok? && |r.value.transactions| <= 100
            && forall i :: 0 <= i < |r.value.transactions| ==> r.value.transactions[i].member == m
  {
  }

  /** On a consistent ledger the newest transaction returned records the current balance. */
  lemma NewestMatchesBalance(l: Ledger, m: Member, limit: Option<real>)
    requires Consistent(l) && m in l.credit
    ensures var r := GetTransactions(l, m, limit);
            |r.value.transactions| > 0 ==> r.value.transactions[0].balance == r.value.credit
  {
  }
}
