/**
 * Three defects of app.py's redemption workflow: two in the decision
 * (admin_aprovar_resgate) and one in the delivery (admin_confirmar_entrega). Each is
 * shown on the handler as written and shown absent from the guarded one. Also the
 * activation gate, seen end to end.
 */
module Findings {
  import opened Wrappers
  import opened Models
  import opened Ledger
  import App
  import Guarded

  // ---------------------------------------------------------------------------
  // 1. No status check: a second rejection refunds a second time
  // ---------------------------------------------------------------------------

  /** app.py: rejecting the same entry twice gives its amount back twice. */
  lemma RejectTwiceRefundsTwice(s: Store, admin: Id, tid: Id)
    requires App.IsAdmin(s, admin) && tid in s.transactions && s.transactions[tid].userId in s.users
    requires var t := s.transactions[tid];
      FitsInteger(s.users[t.userId].saldoTotal) && FitsInteger(s.users[t.userId].saldoTotal + 2 * App.Abs(t.pontos))
    ensures var t := s.transactions[tid];
      && App.AprovarResgate(s, admin, tid, App.REPROVAR).Ok?
      && var s1 := App.AprovarResgate(s, admin, tid, App.REPROVAR).value;
      && App.AprovarResgate(s1, admin, tid, App.REPROVAR).Ok?
      && var s2 := App.AprovarResgate(s1, admin, tid, App.REPROVAR).value;
      && s2.users[t.userId].saldoTotal == s.users[t.userId].saldoTotal + 2 * App.Abs(t.pontos)
  {
  }

  /** ...which breaks the books of any consistent store with a non-zero pending entry. */
  lemma RejectTwiceBreaksLedger(s: Store, admin: Id, tid: Id)
    requires Valid(s) && App.IsAdmin(s, admin) && tid in s.transactions
    requires s.transactions[tid].status == Pendente && s.transactions[tid].pontos != 0
    requires var t := s.transactions[tid];
      FitsInteger(s.users[t.userId].saldoTotal + 2 * App.Abs(t.pontos))
    ensures var s1 := App.AprovarResgate(s, admin, tid, App.REPROVAR).value;
            !Valid(App.AprovarResgate(s1, admin, tid, App.REPROVAR).value)
  {
    var t := s.transactions[tid];
    RejectTwiceRefundsTwice(s, admin, tid);
    var s1 := App.AprovarResgate(s, admin, tid, App.REPROVAR).value;
    var s2 := App.AprovarResgate(s1, admin, tid, App.REPROVAR).value;
    assert s2.transactions == s.transactions[tid := t.(status := Reprovado)];
    BalanceUpdate(s.transactions, tid, t.(status := Reprovado), t.userId, s.nextTxId);
    assert Balance(s2.transactions, t.userId, s2.nextTxId) == s.users[t.userId].saldoTotal - t.pontos;
  }

  /** app.py: a rejected entry can still be confirmed, and the refund is kept. */
  lemma ConfirmAfterRejectKeepsRefund(s: Store, admin: Id, tid: Id)
    requires App.IsAdmin(s, admin) && tid in s.transactions && s.transactions[tid].userId in s.users
    requires s.transactions[tid].status == Reprovado
    ensures App.AprovarResgate(s, admin, tid, App.CONFIRMAR).Ok?
    ensures var r := App.AprovarResgate(s, admin, tid, App.CONFIRMAR).value;
      && r.transactions[tid].status == Concluido
      && r.users[s.transactions[tid].userId] == s.users[s.transactions[tid].userId]
    ensures Guarded.AprovarResgate(s, admin, tid, App.CONFIRMAR) == Err(App.InvalidTransition)
  {
  }

  /**
   * app.py: a rejected, already refunded entry can be marked entregue, which counts its
   * hold again while the refund stays, so the books no longer balance. The guarded
   * handler refuses.
   */
  lemma DeliverAfterRejectBreaksLedger(s: Store, admin: Id, tid: Id)
    requires Valid(s) && App.IsAdmin(s, admin) && tid in s.transactions
    requires s.transactions[tid].status == Reprovado && s.transactions[tid].pontos != 0
    ensures App.ConfirmarEntrega(s, admin, tid).Ok?
    ensures !Valid(App.ConfirmarEntrega(s, admin, tid).value)
    ensures Guarded.ConfirmarEntrega(s, admin, tid) == Err(App.InvalidTransition)
  {
    var t := s.transactions[tid];
    var r := App.ConfirmarEntrega(s, admin, tid).value;
    BalanceUpdate(s.transactions, tid, t.(status := Entregue), t.userId, s.nextTxId);
    assert Balance(r.transactions, t.userId, r.nextTxId) == s.users[t.userId].saldoTotal + t.pontos;
  }

  /**
   * app.py: `reprovar` is accepted on an entry that is not a redemption at all. Rejecting
   * an approved credit of `pontos > 0` removes it from the books and adds it to the
   * balance a second time, so a single rejection already breaks the ledger. The guarded
   * handler refuses.
   */
  lemma RejectCreditBreaksLedger(s: Store, admin: Id, tid: Id)
    requires Valid(s) && App.IsAdmin(s, admin) && tid in s.transactions
    requires s.transactions[tid].status == Aprovado && s.transactions[tid].pontos > 0
    requires FitsInteger(s.users[s.transactions[tid].userId].saldoTotal + s.transactions[tid].pontos)
    ensures App.AprovarResgate(s, admin, tid, App.REPROVAR).Ok?
    ensures !Valid(App.AprovarResgate(s, admin, tid, App.REPROVAR).value)
    ensures Guarded.AprovarResgate(s, admin, tid, App.REPROVAR) == Err(App.InvalidTransition)
  {
    var t := s.transactions[tid];
    var r := App.AprovarResgate(s, admin, tid, App.REPROVAR).value;
    BalanceUpdate(s.transactions, tid, t.(status := Reprovado), t.userId, s.nextTxId);
    assert Balance(r.transactions, t.userId, r.nextTxId) == s.users[t.userId].saldoTotal - t.pontos;
  }

  /** Guarded: after one rejection every further decision on the entry is refused. */
  lemma GuardedRejectRefundsOnce(s: Store, admin: Id, tid: Id, acao: string)
    requires App.IsAdmin(s, admin) && tid in s.transactions && s.transactions[tid].userId in s.users
    requires s.transactions[tid].status == Pendente
    requires FitsInteger(s.users[s.transactions[tid].userId].saldoTotal - s.transactions[tid].pontos)
    requires acao == App.CONFIRMAR || acao == App.REPROVAR
    ensures var t := s.transactions[tid];
      && Guarded.AprovarResgate(s, admin, tid, App.REPROVAR).Ok?
      && var s1 := Guarded.AprovarResgate(s, admin, tid, App.REPROVAR).value;
      && s1.users[t.userId].saldoTotal == s.users[t.userId].saldoTotal - t.pontos
      && Guarded.AprovarResgate(s1, admin, tid, acao) == Err(App.InvalidTransition)
  {
  }

  // ---------------------------------------------------------------------------
  // 2. abs() refund: a redemption of a product with a negative price is not reversed
  // ---------------------------------------------------------------------------

  /**
   * app.py: a product whose price was entered as negative (parse_int accepts "-100")
   * credits the painter on request, and rejecting the request credits the same amount
   * again instead of taking it back.
   */
  lemma NegativePriceRejectCreditsTwice(s: Store, painter: Id, admin: Id, pid: Id)
    requires App.ResgatarProduto(s, painter, pid).Ok?
    requires App.IsAdmin(s, admin)
    requires s.products[pid].valorPontos < 0
    requires FitsInteger(s.users[painter].saldoTotal - 2 * s.products[pid].valorPontos)
    ensures var s1 := App.ResgatarProduto(s, painter, pid).value;
      && App.AprovarResgate(s1, admin, s.nextTxId, App.REPROVAR).Ok?
      && App.AprovarResgate(s1, admin, s.nextTxId, App.REPROVAR).value.users[painter].saldoTotal
           == s.users[painter].saldoTotal - 2 * s.products[pid].valorPontos
      && App.AprovarResgate(s1, admin, s.nextTxId, App.REPROVAR).value.users[painter].saldoTotal
           != s.users[painter].saldoTotal
  {
  }

  // ---------------------------------------------------------------------------
  // A concrete run of the redemption workflow
  // ---------------------------------------------------------------------------

  const PAINTER: Id := 1
  const ADMIN_ID: Id := 2
  const VOUCHER: Id := 1

  function ScenarioStore(): Store
  {
    Store(
      map[PAINTER := User("Ana", "ana@example.com", "1", "pw", 2000, PINTOR, true),
          ADMIN_ID := User("Administrador", "admin@admin.com", "0", "admin", 0, ADMIN, true)],
      map[VOUCHER := Product("Vale Compras R$ 50", "Use no próximo pedido.", 2000, "img", "Vale")],
      map[],
      1)
  }

  /**
   * A painter with 2000 points redeems a 2000-point voucher: the balance drops to 0 and
   * a pending -2000 entry appears. Rejecting restores 2000. Confirming afterwards is
   * refused by the guarded handler and accepted, refund kept, by app.py.
   */
  lemma RedemptionScenario()
    ensures var s0 := ScenarioStore();
      && App.ResgatarProduto(s0, PAINTER, VOUCHER).Ok?
      && var s1 := App.ResgatarProduto(s0, PAINTER, VOUCHER).value;
      && s1.users[PAINTER].saldoTotal == 0
      && s1.transactions[1].pontos == -2000 && s1.transactions[1].status == Pendente
      && Guarded.AprovarResgate(s1, ADMIN_ID, 1, App.REPROVAR).Ok?
      && var s2 := Guarded.AprovarResgate(s1, ADMIN_ID, 1, App.REPROVAR).value;
      && s2.users[PAINTER].saldoTotal == 2000
      && s2.transactions[1].status == Reprovado
      && Guarded.AprovarResgate(s2, ADMIN_ID, 1, App.CONFIRMAR) == Err(App.InvalidTransition)
      && App.AprovarResgate(s2, ADMIN_ID, 1, App.CONFIRMAR).Ok?
      && App.AprovarResgate(s2, ADMIN_ID, 1, App.CONFIRMAR).value.users[PAINTER].saldoTotal == 2000
  {
  }

  // ---------------------------------------------------------------------------
  // The activation gate
  // ---------------------------------------------------------------------------

  /** A freshly registered painter cannot log in, even with the right password. */
  lemma NewUserAwaitsActivation(nome: string, email: string, cpfCnpj: string, senha: string)
    ensures App.Login(Some(NewUser(nome, email, cpfCnpj, senha)), senha) == App.AwaitingActivation
  {
  }

  /** Once activated, the account logs in with its password. */
  lemma ActivationOpensLogin(s: Store, admin: Id, uid: Id)
    requires App.AtivarUsuario(s, admin, uid).Ok?
    ensures App.Login(Some(App.AtivarUsuario(s, admin, uid).value.users[uid]), s.users[uid].senha) == App.LoggedIn
  {
  }
}
