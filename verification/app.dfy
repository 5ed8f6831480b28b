/**
 * The request handlers of app.py that move points or change account and redemption
 * state: each is a pure function from the store to the store after commit, or to the
 * reason the request committed nothing. The handlers check no transaction status, as in
 * app.py; a commit that would put a value outside its column fails as the database makes
 * it fail.
 */
module App {
  import opened Wrappers
  import opened Models
  import FormInput

  /** Why a request left the store unchanged. */
  datatype Failure =
    | Unauthenticated       // @login_required sends an anonymous visitor to the login page
    | Forbidden             // the role check redirects to the index page
    | NotFound              // get_or_404 found no row
    | InsufficientBalance   // the balance check of a redemption failed
    | SelfDeletion          // an administrator tried to delete their own account
    | IntegrityViolation    // the commit was refused by a NOT NULL foreign key
    | DataError             // the commit was refused: a value cannot be stored in its column
    | ServerError           // the handler raised before committing
    | InvalidTransition     // used only by the guarded variants: wrong current status

  /** How a login attempt ends. */
  datatype LoginOutcome = LoggedIn | AwaitingActivation | InvalidCredentials

  /** The current user is logged in and has the administrator role. */
  predicate IsAdmin(s: Store, actor: Id)
  {
    actor in s.users && s.users[actor].role == ADMIN
  }

  /** The guard at the top of every administrator handler. */
  function AdminGate(s: Store, actor: Id): (r: Option<Failure>)
    ensures r.None? <==> IsAdmin(s, actor)
    ensures r.Some? ==> r.value == Unauthenticated || r.value == Forbidden
  {
    if actor !in s.users then Some(Unauthenticated)
    else if s.users[actor].role != ADMIN then Some(Forbidden)
    else None
  }

  // ---------------------------------------------------------------------------
  // Login gate
  // ---------------------------------------------------------------------------

  /**
   * The decision `login` takes once the e-mail query has run: `found` is the row it
   * returned. An account awaiting activation is refused even with the right password,
   * unless it has the administrator role.
   */
  function Login(found: Option<User>, senha: string): (r: LoginOutcome)
    ensures (found.None? || found.value.senha != senha) <==> r == InvalidCredentials
    ensures r == AwaitingActivation <==>
              found.Some? && found.value.senha == senha && !found.value.ativo && found.value.role != ADMIN
    ensures r == LoggedIn <==>
              found.Some? && found.value.senha == senha && (found.value.ativo || found.value.role == ADMIN)
  {
    match found
    case None => InvalidCredentials
    case Some(u) =>
      if u.senha != senha then InvalidCredentials
      else if !u.ativo && u.role != ADMIN then AwaitingActivation
      else LoggedIn
  }

  // ---------------------------------------------------------------------------
  // Points ledger
  // ---------------------------------------------------------------------------

  /**
   * registrar_transacao: records an approved entry of `pontos` for `uid` under the next
   * id and moves the user's balance by the same amount. It does not commit.
   */
  function RegistrarTransacao(s: Store, uid: Id, pontos: int, descricao: string): (r: Store)
    requires uid in s.users
    ensures uid in r.users && r.users[uid].saldoTotal == s.users[uid].saldoTotal + pontos
    ensures r.users[uid].(saldoTotal := 0) == s.users[uid].(saldoTotal := 0)
    ensures r.nextTxId == s.nextTxId + 1
    ensures r.transactions.Keys == s.transactions.Keys + {s.nextTxId}
    ensures r.transactions[s.nextTxId] == NewTransaction(uid, pontos, descricao)
    ensures OnlyTouches(s, r, uid, s.nextTxId)
  {
    var u := s.users[uid];
    s.(users := s.users[uid := u.(saldoTotal := u.saldoTotal + pontos)],
       transactions := s.transactions[s.nextTxId := NewTransaction(uid, pontos, descricao)],
       nextTxId := s.nextTxId + 1)
  }

  const DEFAULT_CREDIT_DESCRIPTION: string := "Crédito manual"

  /** The manual credit goes ahead: the target exists and the points are non-zero. */
  predicate CreditApplies(s: Store, target: Option<Id>, pontos: int)
  {
    target.Some? && target.value in s.users && pontos != 0
  }

  /**
   * The `credito_manual` action of admin_usuarios. `target` is the user the form's
   * `user_id` names (None when it names no row), `pontosField` the raw `pontos` field,
   * `descricao` the optional description field.
   */
  function CreditoManual(s: Store, actor: Id, target: Option<Id>, pontosField: Option<string>,
                         descricao: Option<string>): (r: Result<Store, Failure>)
    ensures !IsAdmin(s, actor) ==> r.Err? && (r.error == Unauthenticated || r.error == Forbidden)
    ensures IsAdmin(s, actor) && !CreditApplies(s, target, FormInput.ParseInt(pontosField, 0)) ==> r == Ok(s)
    ensures IsAdmin(s, actor) && CreditApplies(s, target, FormInput.ParseInt(pontosField, 0)) ==>
      var pontos := FormInput.ParseInt(pontosField, 0);
      var d := descricao.GetOr(DEFAULT_CREDIT_DESCRIPTION);
      && (r.Ok? <==> FitsInteger(pontos) && FitsInteger(s.users[target.value].saldoTotal + pontos)
                     && StoredDescription(d).Some?)
      && (r.Err? ==> r.error == DataError)
      && (r.Ok? ==>
        && r.value.users.Keys == s.users.Keys
        && r.value.transactions.Keys == s.transactions.Keys + {s.nextTxId}
        && r.value.users[target.value].saldoTotal == s.users[target.value].saldoTotal + pontos
        && r.value.users[target.value].(saldoTotal := 0) == s.users[target.value].(saldoTotal := 0)
        && r.value.transactions[s.nextTxId] == Transaction(target.value, pontos, StoredDescription(d).value, Aprovado)
        && r.value.nextTxId == s.nextTxId + 1
        && OnlyTouches(s, r.value, target.value, s.nextTxId))
  {
    match AdminGate(s, actor)
    case Some(e) => Err(e)
    case None =>
      var pontos := FormInput.ParseInt(pontosField, 0);
      if CreditApplies(s, target, pontos) then
        match StoredDescription(descricao.GetOr(DEFAULT_CREDIT_DESCRIPTION))
        case None => Err(DataError)
        case Some(d) =>
          var r := RegistrarTransacao(s, target.value, pontos, d);
          if FitsInteger(pontos) && FitsInteger(r.users[target.value].saldoTotal) then Ok(r)
          else Err(DataError)
      else
        Ok(s)
  }

  // ---------------------------------------------------------------------------
  // Redemption workflow
  // ---------------------------------------------------------------------------

  /** The description a redemption entry carries: f"Resgate: {produto.nome}". */
  function RedemptionDescription(p: Product): string
  {
    "Resgate: " + p.nome
  }

  /** A painter asks for an existing product and the balance check passes. */
  predicate RedemptionAllowed(s: Store, actor: Id, pid: Id)
  {
    && actor in s.users && s.users[actor].role == PINTOR && pid in s.products
    && s.users[actor].saldoTotal >= s.products[pid].valorPontos
  }

  /**
   * resgatar_produto: a painter asks for product `pid`. The price is reserved at once: a
   * pending entry of minus the price is recorded and the balance drops by the price.
   */
  function ResgatarProduto(s: Store, actor: Id, pid: Id): (r: Result<Store, Failure>)
    ensures r.Ok? <==>
      && RedemptionAllowed(s, actor, pid)
      && FitsInteger(-s.products[pid].valorPontos)
      && FitsInteger(s.users[actor].saldoTotal - s.products[pid].valorPontos)
      && StoredDescription(RedemptionDescription(s.products[pid])).Some?
    ensures actor !in s.users ==> r == Err(Unauthenticated)
    ensures actor in s.users && s.users[actor].role != PINTOR ==> r == Err(Forbidden)
    ensures actor in s.users && s.users[actor].role == PINTOR && pid !in s.products ==> r == Err(NotFound)
    ensures r == Err(InsufficientBalance) <==>
      && actor in s.users && s.users[actor].role == PINTOR && pid in s.products
      && s.users[actor].saldoTotal < s.products[pid].valorPontos
    ensures r == Err(DataError) ==> RedemptionAllowed(s, actor, pid)
    ensures r.Ok? ==>
      var price := s.products[pid].valorPontos;
      && r.value.users.Keys == s.users.Keys
      && r.value.transactions.Keys == s.transactions.Keys + {s.nextTxId}
      && r.value.users[actor].saldoTotal == s.users[actor].saldoTotal - price
      && r.value.users[actor].saldoTotal >= 0
      && r.value.users[actor].(saldoTotal := 0) == s.users[actor].(saldoTotal := 0)
      && r.value.nextTxId == s.nextTxId + 1
      && r.value.transactions[s.nextTxId]
           == Transaction(actor, -price, StoredDescription(RedemptionDescription(s.products[pid])).value, Pendente)
      && OnlyTouches(s, r.value, actor, s.nextTxId)
  {
    if actor !in s.users then Err(Unauthenticated)
    else if s.users[actor].role != PINTOR then Err(Forbidden)
    else if pid !in s.products then Err(NotFound)
    else
      var u := s.users[actor];
      var p := s.products[pid];
      if u.saldoTotal < p.valorPontos then Err(InsufficientBalance)
      else
        match StoredDescription(RedemptionDescription(p))
        case None => Err(DataError)
        case Some(d) =>
          if !FitsInteger(-p.valorPontos) || !FitsInteger(u.saldoTotal - p.valorPontos) then Err(DataError)
          else
            Ok(s.(users := s.users[actor := u.(saldoTotal := u.saldoTotal - p.valorPontos)],
                  transactions := s.transactions[s.nextTxId := Transaction(actor, -p.valorPontos, d, Pendente)],
                  nextTxId := s.nextTxId + 1))
  }

  const CONFIRMAR: string := "confirmar"
  const REPROVAR: string := "reprovar"

  /** Python's abs on integers. */
  function Abs(x: int): (r: nat)
    ensures r == x || r == -x
  {
    if x < 0 then -x else x
  }

  /**
   * admin_aprovar_resgate: `confirmar` marks the entry concluido; `reprovar` gives
   * abs(pontos) back to its owner and marks it reprovado; any other action commits
   * nothing. The entry's current status is not looked at.
   */
  function AprovarResgate(s: Store, actor: Id, tid: Id, acao: string): (r: Result<Store, Failure>)
    ensures !IsAdmin(s, actor) ==> r.Err? && (r.error == Unauthenticated || r.error == Forbidden)
    ensures IsAdmin(s, actor) && tid !in s.transactions ==> r == Err(NotFound)
    ensures IsAdmin(s, actor) && tid in s.transactions && acao != CONFIRMAR && acao != REPROVAR ==> r == Ok(s)
    ensures IsAdmin(s, actor) && tid in s.transactions && (acao == CONFIRMAR || acao == REPROVAR) ==>
      var t := s.transactions[tid];
      && (t.userId !in s.users ==> r == Err(ServerError))
      && (t.userId in s.users && acao == REPROVAR ==>
            && (r.Ok? <==> FitsInteger(s.users[t.userId].saldoTotal + Abs(t.pontos)))
            && (r.Err? ==> r.error == DataError))
      && (t.userId in s.users && acao == CONFIRMAR ==> r.Ok?)
    ensures r.Ok? && (acao == CONFIRMAR || acao == REPROVAR) ==>
      var t := s.transactions[tid];
      && t.userId in s.users
      && r.value.users.Keys == s.users.Keys
      && r.value.transactions.Keys == s.transactions.Keys
      && r.value.transactions[tid] == t.(status := if acao == CONFIRMAR then Concluido else Reprovado)
      && r.value.users[t.userId].saldoTotal
           == s.users[t.userId].saldoTotal + (if acao == REPROVAR then Abs(t.pontos) else 0)
      && r.value.users[t.userId].(saldoTotal := 0) == s.users[t.userId].(saldoTotal := 0)
      && r.value.nextTxId == s.nextTxId
      && OnlyTouches(s, r.value, t.userId, tid)
  {
    match AdminGate(s, actor)
    case Some(e) => Err(e)
    case None =>
      if tid !in s.transactions then Err(NotFound)
      else
        var t := s.transactions[tid];
        if acao == CONFIRMAR then
          // the flash message reads user.nome, which raises when the owner row is gone
          if t.userId !in s.users then Err(ServerError)
          else Ok(s.(transactions := s.transactions[tid := t.(status := Concluido)]))
        else if acao == REPROVAR then
          if t.userId !in s.users then Err(ServerError)
          else
            var u := s.users[t.userId];
            if !FitsInteger(u.saldoTotal + Abs(t.pontos)) then Err(DataError)
            else
              Ok(s.(users := s.users[t.userId := u.(saldoTotal := u.saldoTotal + Abs(t.pontos))],
                    transactions := s.transactions[tid := t.(status := Reprovado)]))
        else
          Ok(s)
  }

  /** admin_confirmar_entrega: marks the entry entregue, whatever its current status. */
  function ConfirmarEntrega(s: Store, actor: Id, tid: Id): (r: Result<Store, Failure>)
    ensures r.Ok? <==> IsAdmin(s, actor) && tid in s.transactions
    ensures IsAdmin(s, actor) && tid !in s.transactions ==> r == Err(NotFound)
    ensures r.Ok? ==>
      && r.value.transactions.Keys == s.transactions.Keys
      && r.value.transactions[tid] == s.transactions[tid].(status := Entregue)
      && r.value.users == s.users
      && r.value.nextTxId == s.nextTxId
      && OnlyTouches(s, r.value, s.transactions[tid].userId, tid)
  {
    match AdminGate(s, actor)
    case Some(e) => Err(e)
    case None =>
      if tid !in s.transactions then Err(NotFound)
      else Ok(s.(transactions := s.transactions[tid := s.transactions[tid].(status := Entregue)]))
  }

  // ---------------------------------------------------------------------------
  // Account administration
  // ---------------------------------------------------------------------------

  /** ativar_usuario: sets the account's activation flag and nothing else. */
  function AtivarUsuario(s: Store, actor: Id, uid: Id): (r: Result<Store, Failure>)
    ensures r.Ok? <==> IsAdmin(s, actor) && uid in s.users
    ensures IsAdmin(s, actor) && uid !in s.users ==> r == Err(NotFound)
    ensures r.Ok? ==>
      && r.value.users.Keys == s.users.Keys
      && r.value.users[uid].ativo
      && r.value.users[uid].(ativo := false) == s.users[uid].(ativo := false)
      && r.value.transactions == s.transactions
      && r.value.nextTxId == s.nextTxId
      && OnlyTouches(s, r.value, uid, s.nextTxId)
  {
    match AdminGate(s, actor)
    case Some(e) => Err(e)
    case None =>
      if uid !in s.users then Err(NotFound)
      else Ok(s.(users := s.users[uid := s.users[uid].(ativo := true)]))
  }

  /** The user owns at least one ledger entry. */
  predicate OwnsEntries(s: Store, uid: Id)
  {
    exists k :: k in s.transactions && s.transactions[k].userId == uid
  }

  /**
   * admin_deletar_usuario: removes an account, except the administrator's own. Removing
   * an account that owns entries would null their NOT NULL `user_id`, so the commit fails.
   */
  function DeletarUsuario(s: Store, actor: Id, uid: Id): (r: Result<Store, Failure>)
    ensures r.Ok? <==> IsAdmin(s, actor) && uid in s.users && uid != actor && !OwnsEntries(s, uid)
    ensures IsAdmin(s, actor) && uid == actor ==> r == Err(SelfDeletion)
    ensures r.Ok? ==>
      && r.value.users.Keys == s.users.Keys - {uid}
      && (forall u :: u in r.value.users ==> r.value.users[u] == s.users[u])
      && r.value.transactions == s.transactions
      && r.value.products == s.products
      && r.value.nextTxId == s.nextTxId
  {
    match AdminGate(s, actor)
    case Some(e) => Err(e)
    case None =>
      if uid !in s.users then Err(NotFound)
      else if uid == actor then Err(SelfDeletion)
      else if OwnsEntries(s, uid) then Err(IntegrityViolation)
      else Ok(s.(users := s.users - {uid}))
  }
}
