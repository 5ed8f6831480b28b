/**
 * Redemption decisions with the status check the workflow needs: a decision is taken
 * only on a pending entry and delivery is recorded only for a confirmed one. A rejection
 * reverses the hold exactly, by subtracting the entry's amount.
 */
module Guarded {
  import opened Wrappers
  import opened Models
  import App

  /** admin_aprovar_resgate, refusing to decide an entry that is not pendente. */
  function AprovarResgate(s: Store, actor: Id, tid: Id, acao: string): (r: Result<Store, App.Failure>)
    ensures !App.IsAdmin(s, actor) ==> r.Err? && r.error != App.NotFound && r.error != App.InvalidTransition
    ensures App.IsAdmin(s, actor) && tid !in s.transactions ==> r == Err(App.NotFound)
    ensures App.IsAdmin(s, actor) && tid in s.transactions && acao != App.CONFIRMAR && acao != App.REPROVAR
            ==> r == Ok(s)
    ensures App.IsAdmin(s, actor) && tid in s.transactions && (acao == App.CONFIRMAR || acao == App.REPROVAR)
            ==> (r == Err(App.InvalidTransition) <==> s.transactions[tid].status != Pendente)
    ensures App.IsAdmin(s, actor) && tid in s.transactions && s.transactions[tid].status == Pendente
            && s.transactions[tid].userId in s.users && (acao == App.CONFIRMAR || acao == App.REPROVAR) ==>
      var t := s.transactions[tid];
      && (acao == App.CONFIRMAR ==> r.Ok?)
      && (acao == App.REPROVAR ==> (r.Ok? <==> FitsInteger(s.users[t.userId].saldoTotal - t.pontos)))
    ensures r.Ok? && (acao == App.CONFIRMAR || acao == App.REPROVAR) ==>
      var t := s.transactions[tid];
      && t.userId in s.users
      && r.value.users.Keys == s.users.Keys
      && r.value.transactions.Keys == s.transactions.Keys
      && CanTransition(t.status, r.value.transactions[tid].status)
      && r.value.transactions[tid] == t.(status := if acao == App.CONFIRMAR then Concluido else Reprovado)
      && r.value.users[t.userId].saldoTotal
           == s.users[t.userId].saldoTotal - (if acao == App.REPROVAR then t.pontos else 0)
      && r.value.users[t.userId].(saldoTotal := 0) == s.users[t.userId].(saldoTotal := 0)
      && r.value.nextTxId == s.nextTxId
      && OnlyTouches(s, r.value, t.userId, tid)
  {
    match App.AdminGate(s, actor)
    case Some(e) => Err(e)
    case None =>
      if tid !in s.transactions then Err(App.NotFound)
      else if acao != App.CONFIRMAR && acao != App.REPROVAR then Ok(s)
      else
        var t := s.transactions[tid];
        if t.status != Pendente then Err(App.InvalidTransition)
        else if t.userId !in s.users then Err(App.ServerError)
        else if acao == App.CONFIRMAR then
          Ok(s.(transactions := s.transactions[tid := t.(status := Concluido)]))
        else if !FitsInteger(s.users[t.userId].saldoTotal - t.pontos) then Err(App.DataError)
        else
          var u := s.users[t.userId];
          Ok(s.(users := s.users[t.userId := u.(saldoTotal := u.saldoTotal - t.pontos)],
                transactions := s.transactions[tid := t.(status := Reprovado)]))
  }

  /** admin_confirmar_entrega, refusing an entry that is not concluido. */
  function ConfirmarEntrega(s: Store, actor: Id, tid: Id): (r: Result<Store, App.Failure>)
    ensures r.Ok? <==> App.IsAdmin(s, actor) && tid in s.transactions && s.transactions[tid].status == Concluido
    ensures App.IsAdmin(s, actor) && tid in s.transactions && s.transactions[tid].status != Concluido
            ==> r == Err(App.InvalidTransition)
    ensures r.Ok? ==>
      && r.value.transactions.Keys == s.transactions.Keys
      && CanTransition(s.transactions[tid].status, r.value.transactions[tid].status)
      && r.value.transactions[tid] == s.transactions[tid].(status := Entregue)
      && r.value.users == s.users
      && r.value.nextTxId == s.nextTxId
      && OnlyTouches(s, r.value, s.transactions[tid].userId, tid)
  {
    match App.AdminGate(s, actor)
    case Some(e) => Err(e)
    case None =>
      if tid !in s.transactions then Err(App.NotFound)
      else if s.transactions[tid].status != Concluido then Err(App.InvalidTransition)
      else Ok(s.(transactions := s.transactions[tid := s.transactions[tid].(status := Entregue)]))
  }
}
