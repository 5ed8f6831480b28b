/**
 * The ledger relation (Ledger.Valid) is kept by every request handler, provided the
 * redemption decisions are the guarded ones; and ledger entries never change owner,
 * amount or description.
 */
module Invariants {
  import opened Wrappers
  import opened Models
  import opened Ledger
  import App
  import Guarded
  import FormInput

  /** An entry of `pontos` points for `uid`, recorded under the next id, keeps the books. */
  lemma AppendKeepsValid(s: Store, r: Store, uid: Id, t: Transaction)
    requires Valid(s)
    requires uid in s.users && t.userId == uid && t.status != Reprovado && EntryFits(t)
    requires r.products == s.products
    requires r.users.Keys == s.users.Keys
    requires forall u :: u in s.users && u != uid ==> r.users[u] == s.users[u]
    requires r.users[uid].saldoTotal == s.users[uid].saldoTotal + t.pontos
    requires FitsInteger(r.users[uid].saldoTotal)
    requires r.transactions == s.transactions[s.nextTxId := t] && r.nextTxId == s.nextTxId + 1
    ensures Valid(r)
  {
    forall v | v in r.users
      ensures r.users[v].saldoTotal == Balance(r.transactions, v, r.nextTxId)
    {
      BalanceAppend(s.transactions, t, v, s.nextTxId);
    }
  }

  /**
   * registrar_transacao keeps every balance equal to its entries' sum, whenever the
   * commit that follows it can store the new values.
   */
  lemma RegistrarTransacaoKeepsValid(s: Store, uid: Id, pontos: int, descricao: string)
    requires Valid(s) && uid in s.users
    requires EntryFits(NewTransaction(uid, pontos, descricao)) && FitsInteger(s.users[uid].saldoTotal + pontos)
    ensures Valid(App.RegistrarTransacao(s, uid, pontos, descricao))
  {
    AppendKeepsValid(s, App.RegistrarTransacao(s, uid, pontos, descricao), uid, NewTransaction(uid, pontos, descricao));
  }

  lemma CreditoManualKeepsValid(s: Store, actor: Id, target: Option<Id>, pontosField: Option<string>,
                                descricao: Option<string>)
    requires Valid(s)
    ensures App.CreditoManual(s, actor, target, pontosField, descricao).Ok? ==>
              Valid(App.CreditoManual(s, actor, target, pontosField, descricao).value)
  {
    if App.CreditoManual(s, actor, target, pontosField, descricao).Ok?
       && App.IsAdmin(s, actor) && App.CreditApplies(s, target, FormInput.ParseInt(pontosField, 0)) {
      RegistrarTransacaoKeepsValid(s, target.value, FormInput.ParseInt(pontosField, 0),
                                   StoredDescription(descricao.GetOr(App.DEFAULT_CREDIT_DESCRIPTION)).value);
    }
  }

  /** A redemption request keeps the books: the hold is itself a ledger entry. */
  lemma ResgatarProdutoKeepsValid(s: Store, actor: Id, pid: Id)
    requires Valid(s)
    ensures App.ResgatarProduto(s, actor, pid).Ok? ==> Valid(App.ResgatarProduto(s, actor, pid).value)
  {
    var r := App.ResgatarProduto(s, actor, pid);
    if r.Ok? {
      AppendKeepsValid(s, r.value, actor, r.value.transactions[s.nextTxId]);
    }
  }

  /** Changing only the status of entry `tid` keeps the books when the owner's balance follows. */
  lemma StatusChangeKeepsValid(s: Store, r: Store, tid: Id, st: Status)
    requires Valid(s) && tid in s.transactions
    requires r.products == s.products && r.nextTxId == s.nextTxId
    requires r.transactions == s.transactions[tid := s.transactions[tid].(status := st)]
    requires r.users.Keys == s.users.Keys
    requires forall u :: u in s.users && u != s.transactions[tid].userId ==> r.users[u] == s.users[u]
    requires s.transactions[tid].userId in s.users ==> FitsInteger(r.users[s.transactions[tid].userId].saldoTotal)
    requires var t := s.transactions[tid];
      r.users[t.userId].saldoTotal
        == s.users[t.userId].saldoTotal - Contribution(t, t.userId) + Contribution(t.(status := st), t.userId)
    ensures Valid(r)
  {
    var t := s.transactions[tid];
    forall v | v in r.users
      ensures r.users[v].saldoTotal == Balance(r.transactions, v, r.nextTxId)
    {
      BalanceUpdate(s.transactions, tid, t.(status := st), v, s.nextTxId);
    }
  }

  /** The guarded decision keeps the books: a rejection removes the entry and its amount. */
  lemma GuardedAprovarResgateKeepsValid(s: Store, actor: Id, tid: Id, acao: string)
    requires Valid(s)
    ensures Guarded.AprovarResgate(s, actor, tid, acao).Ok? ==>
              Valid(Guarded.AprovarResgate(s, actor, tid, acao).value)
  {
    var r := Guarded.AprovarResgate(s, actor, tid, acao);
    if r.Ok? && (acao == App.CONFIRMAR || acao == App.REPROVAR) {
      StatusChangeKeepsValid(s, r.value, tid, r.value.transactions[tid].status);
    }
  }

  lemma GuardedConfirmarEntregaKeepsValid(s: Store, actor: Id, tid: Id)
    requires Valid(s)
    ensures Guarded.ConfirmarEntrega(s, actor, tid).Ok? ==> Valid(Guarded.ConfirmarEntrega(s, actor, tid).value)
  {
    var r := Guarded.ConfirmarEntrega(s, actor, tid);
    if r.Ok? {
      StatusChangeKeepsValid(s, r.value, tid, Entregue);
    }
  }

  lemma AtivarUsuarioKeepsValid(s: Store, actor: Id, uid: Id)
    requires Valid(s)
    ensures App.AtivarUsuario(s, actor, uid).Ok? ==> Valid(App.AtivarUsuario(s, actor, uid).value)
  {
  }

  /** Deleting an account keeps the books: only accounts without entries can go. */
  lemma DeletarUsuarioKeepsValid(s: Store, actor: Id, uid: Id)
    requires Valid(s)
    ensures App.DeletarUsuario(s, actor, uid).Ok? ==> Valid(App.DeletarUsuario(s, actor, uid).value)
  {
  }

  /** A new painter account, owning no entries, can join a consistent store. */
  lemma NewUserKeepsValid(s: Store, uid: Id, nome: string, email: string, cpfCnpj: string, senha: string)
    requires Valid(s) && uid !in s.users
    ensures Valid(s.(users := s.users[uid := NewUser(nome, email, cpfCnpj, senha)]))
  {
    var r := s.(users := s.users[uid := NewUser(nome, email, cpfCnpj, senha)]);
    forall k | 0 <= k < s.nextTxId
      ensures ContributionAt(s.transactions, k, uid) == ContributionAt(map[], k, uid)
    {
    }
    BalanceFrame(s.transactions, map[], uid, s.nextTxId);
    assert Balance(map[], uid, s.nextTxId) == 0 by { BalanceOfEmpty(uid, s.nextTxId); }
  }

  lemma {:induction false} BalanceOfEmpty(uid: Id, n: nat)
    ensures Balance(map[], uid, n) == 0
  {
    if n > 0 {
      BalanceOfEmpty(uid, n - 1);
    }
  }

  // ---------------------------------------------------------------------------
  // Any sequence of requests
  // ---------------------------------------------------------------------------

  /** One request, with its form inputs. */
  datatype Request =
    | Credit(actor: Id, target: Option<Id>, pontosField: Option<string>, descricao: Option<string>)
    | Redeem(actor: Id, pid: Id)
    | Decide(actor: Id, tid: Id, acao: string)
    | Deliver(actor: Id, tid: Id)
    | Activate(actor: Id, uid: Id)
    | Delete(actor: Id, uid: Id)

  /** The store after one request: the committed state, or the old one on failure. */
  function Commit(s: Store, r: Result<Store, App.Failure>): Store
  {
    if r.Ok? then r.value else s
  }

  /** One request handled with the guarded redemption decisions. */
  function Step(s: Store, q: Request): Store
  {
    match q
    case Credit(a, t, p, d) => Commit(s, App.CreditoManual(s, a, t, p, d))
    case Redeem(a, pid) => Commit(s, App.ResgatarProduto(s, a, pid))
    case Decide(a, tid, acao) => Commit(s, Guarded.AprovarResgate(s, a, tid, acao))
    case Deliver(a, tid) => Commit(s, Guarded.ConfirmarEntrega(s, a, tid))
    case Activate(a, uid) => Commit(s, App.AtivarUsuario(s, a, uid))
    case Delete(a, uid) => Commit(s, App.DeletarUsuario(s, a, uid))
  }

  /** One request handled with app.py's own decision and delivery handlers. */
  function StepAsWritten(s: Store, q: Request): Store
  {
    match q
    case Decide(a, tid, acao) => Commit(s, App.AprovarResgate(s, a, tid, acao))
    case Deliver(a, tid) => Commit(s, App.ConfirmarEntrega(s, a, tid))
    case _ => Step(s, q)
  }

  function Run(s: Store, qs: seq<Request>): Store
    decreases |qs|
  {
    if |qs| == 0 then s else Run(Step(s, qs[0]), qs[1..])
  }

  lemma StepKeepsValid(s: Store, q: Request)
    requires Valid(s)
    ensures Valid(Step(s, q))
  {
    match q
    case Credit(a, t, p, d) => CreditoManualKeepsValid(s, a, t, p, d);
    case Redeem(a, pid) => ResgatarProdutoKeepsValid(s, a, pid);
    case Decide(a, tid, acao) => GuardedAprovarResgateKeepsValid(s, a, tid, acao);
    case Deliver(a, tid) => GuardedConfirmarEntregaKeepsValid(s, a, tid);
    case Activate(a, uid) => AtivarUsuarioKeepsValid(s, a, uid);
    case Delete(a, uid) => DeletarUsuarioKeepsValid(s, a, uid);
  }

  /**
   * After any sequence of requests every balance is the sum of the user's credits plus
   * the holds of redemptions not rejected.
   */
  lemma {:induction false} RunKeepsValid(s: Store, qs: seq<Request>)
    requires Valid(s)
    ensures Valid(Run(s, qs))
    decreases |qs|
  {
    if |qs| > 0 {
      StepKeepsValid(s, qs[0]);
      RunKeepsValid(Step(s, qs[0]), qs[1..]);
    }
  }

  // ---------------------------------------------------------------------------
  // Entries are immutable except for their status
  // ---------------------------------------------------------------------------

  /** Both variants keep every entry's owner, amount and description. */
  lemma StepKeepsEntries(s: Store, q: Request)
    requires forall k :: k in s.transactions ==> k < s.nextTxId
    ensures EntriesKept(s, Step(s, q))
    ensures EntriesKept(s, StepAsWritten(s, q))
  {
  }

  /** With the guarded decisions, a status only ever moves along the workflow. */
  lemma StepFollowsWorkflow(s: Store, q: Request, k: Id)
    requires forall j :: j in s.transactions ==> j < s.nextTxId
    requires k in s.transactions
    ensures k in Step(s, q).transactions
    ensures var st := Step(s, q).transactions[k].status;
            st == s.transactions[k].status || CanTransition(s.transactions[k].status, st)
  {
  }

  // ---------------------------------------------------------------------------
  // The guarded decisions agree with app.py where app.py is right
  // ---------------------------------------------------------------------------

  /** On a pending entry holding points (pontos <= 0) both decisions do the same. */
  lemma GuardedAgreesOnPendingHold(s: Store, actor: Id, tid: Id, acao: string)
    requires tid in s.transactions
    requires s.transactions[tid].status == Pendente && s.transactions[tid].pontos <= 0
    ensures Guarded.AprovarResgate(s, actor, tid, acao) == App.AprovarResgate(s, actor, tid, acao)
  {
  }

  /** On a confirmed entry both delivery handlers do the same. */
  lemma GuardedAgreesOnConfirmed(s: Store, actor: Id, tid: Id)
    requires tid in s.transactions && s.transactions[tid].status == Concluido
    ensures Guarded.ConfirmarEntrega(s, actor, tid) == App.ConfirmarEntrega(s, actor, tid)
  {
  }

  // ---------------------------------------------------------------------------
  // Conservation across a request and its rejection
  // ---------------------------------------------------------------------------

  /**
   * A painter requests `pid`, an administrator rejects it: the painter's balance is
   * back where it started and the entry is reprovado.
   */
  lemma RequestThenRejectRestoresBalance(s: Store, painter: Id, admin: Id, pid: Id)
    requires App.ResgatarProduto(s, painter, pid).Ok?
    requires App.IsAdmin(s, admin)
    requires FitsInteger(s.users[painter].saldoTotal)
    ensures var s1 := App.ResgatarProduto(s, painter, pid).value;
      && Guarded.AprovarResgate(s1, admin, s.nextTxId, App.REPROVAR).Ok?
      && var s2 := Guarded.AprovarResgate(s1, admin, s.nextTxId, App.REPROVAR).value;
      && s2.users[painter] == s.users[painter]
      && s2.transactions[s.nextTxId].status == Reprovado
  {
  }

  /** The same holds for app.py's own handler whenever the price is not negative. */
  lemma RequestThenRejectAsWritten(s: Store, painter: Id, admin: Id, pid: Id)
    requires App.ResgatarProduto(s, painter, pid).Ok?
    requires App.IsAdmin(s, admin)
    requires FitsInteger(s.users[painter].saldoTotal)
    requires s.products[pid].valorPontos >= 0
    ensures var s1 := App.ResgatarProduto(s, painter, pid).value;
      && App.AprovarResgate(s1, admin, s.nextTxId, App.REPROVAR).Ok?
      && App.AprovarResgate(s1, admin, s.nextTxId, App.REPROVAR).value.users[painter] == s.users[painter]
  {
  }
}
