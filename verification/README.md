# Points ledger and redemption workflow of a painters' loyalty platform

A paint retailer runs a loyalty platform for painters ("pintores"). Administrators credit
points to painters. Painters redeem points for catalog products ("resgate"). An
administrator then confirms or rejects each redemption and later records the physical
delivery. New accounts must be activated by an administrator before they can log in.

This project models that core in Dafny: the three records of `models.py` and the
handlers of `app.py` that move points or change account and redemption state. The
database is an immutable `Store`: maps from id to `User`, `Product` and `Transaction`,
plus the next value of the transaction id sequence. Each handler is a pure function from
a store to `Ok(store after commit)` or `Err(failure)`, and a failure means nothing was
committed.

The database is taken to be PostgreSQL, the one the deployment reaches through
`DATABASE_URL`. Integer columns (`db.Integer`) hold 32-bit signed values, and the
transaction description (`String(255)`) holds at most 255 characters. A commit fails
with `DataError` when a balance or an entry's amount falls outside the INTEGER range. It
also fails when the description is too long, with one exception: a longer description
whose characters past the 255th are all spaces is clipped to 255 characters and
committed. A description containing a NUL character is refused by the database driver,
so that commit fails as well.

Modules:
- `Wrappers` (wrappers.dfy): `Option` and `Result`.
- `Models` (models.py): the records, their defaults, the status workflow and two frame predicates.
- `FormInput`: `parse_int`, modelled on Python's `int(str)` and checked against a grammar. Also `allowed_file`.
- `Ledger`: the accounting relation `Valid`. Every `saldo_total` equals the sum of the user's entries, leaving out entries whose redemption was rejected. Every stored value fits its column.
- `App`: the handlers with app.py's own logic. They do no status checks, and a commit of a value too large for its column fails.
- `Guarded`: the redemption decision and the delivery confirmation with the status checks the workflow needs.
- `Invariants`: every handler keeps `Valid` when the decision and the delivery are the guarded ones, including over any sequence of requests. Entries never change owner, amount or description.
- `Findings`: the defects of the decision and delivery handlers, and a concrete redemption run.

Where the documented design and the code differ, the model follows the code:
- A decision is taken on an entry whatever its status.
- The refund is `abs(pontos)`.
- Only the role `pintor` may redeem.
- Login looks the account up by e-mail.

## Model

| member | source | states |
|---|---|---|
| Models.NewUser | models.py:16-21 | a new user row has balance 0, role `pintor` and is not yet active |
| Models.StoredDescription | models.py:39 | a description commits exactly when it has no NUL and is at most 255 characters long or has only spaces past the 255th. The stored text is then the description itself when it is short enough, and otherwise its first 255 characters |
| Models.StoredDescriptionIsStable | models.py:39 | a stored description, committed again, is stored unchanged |
| Models.StoredDescriptionClipsBlanks | models.py:39 | 255 characters without NUL followed by any run of spaces commit as those 255 characters |
| Models.NewTransaction | models.py:36-41 | a transaction row built without a status is `aprovado`; owner and amount are the given non-null values |
| FormInput.ScanGroup | app.py:108-112 | scanning a digit run succeeds exactly when every character is a digit or a single underscore between digits, and yields the run's decimal value |
| FormInput.ParseInt | app.py:108-112 | a missing or malformed field gives `default`; a well-formed literal (whitespace, optional sign, digit run) gives its integer value |
| FormInput.ParseIntRoundTrip | app.py:108-112 | every integer's decimal spelling is accepted and parses back to that integer |
| FormInput.ParseIntKeepsSeparatorControls | app.py:108-112 | for every control character U+001C to U+001F and every digit run, the character placed before or after the run is not stripped, so the field gives `default` |
| FormInput.ParseIntIgnoresPadding | app.py:110 | any leading and trailing whitespace (space, tab, line feed, vertical tab, form feed, carriage return) around any field leaves the result unchanged |
| FormInput.ParseIntBlankIsDefault | app.py:110-112 | an empty field, or one made only of such whitespace, gives `default` |
| FormInput.Lower | app.py:39 | lower-casing keeps the length and folds each letter |
| FormInput.LastDot | app.py:38-39 | finds a dot exactly when the name has one, and no dot follows it |
| FormInput.AllowedFile | app.py:36-39 | accepted exactly when the name has a dot and the text after its last dot, lower-cased, is png, jpg, jpeg or gif |
| FormInput.AllowedFileJudgesLastExtension | app.py:36-39 | for `stem.ext` with no dot in `ext`, only `ext` decides, whatever dots the stem has |
| App.AdminGate | app.py:175-176 | an administrator handler proceeds exactly when the current user exists and has role `admin`; otherwise it is refused |
| App.Login | app.py:57-65 | a wrong or unknown account is refused; with the right password, the account logs in exactly when it is active or an admin, and otherwise is told to await activation |
| App.RegistrarTransacao | app.py:98-106 | adds exactly one `aprovado` entry carrying `pontos` under a new id and raises that user's balance by `pontos`; nothing else changes |
| App.CreditoManual | app.py:178-188 | non-admins are refused. Without an existing target or with zero parsed points, nothing changes. Otherwise the credit commits exactly when the points and the new balance fit the INTEGER range and the description can be stored. It then adds one `aprovado` entry under the next id, carrying the description as stored, and moves only the target's balance. On a failed commit nothing changes |
| App.ResgatarProduto | app.py:349-372 | succeeds iff the user is a painter, the product exists, the balance covers the price, the new values fit the INTEGER range and the description can be stored. Then the balance drops by the price and stays >= 0, and one `pendente` entry of minus the price is added. A visitor who is not logged in is refused as unauthenticated, a non-painter as forbidden, and an unknown product as not found. An insufficient balance changes nothing |
| App.AprovarResgate | app.py:377-396 | `confirmar` sets `concluido` with no balance change. `reprovar` on an entry whose owner exists succeeds exactly when the refunded balance fits its column, and then sets `reprovado` and refunds abs(pontos) to the owner; otherwise it fails with `DataError`. Any other action commits nothing. The current status is not checked |
| App.ConfirmarEntrega | app.py:288-296 | sets `entregue` whatever the current status; no balance changes |
| App.AtivarUsuario | app.py:314-322 | sets `ativo` on an existing account and changes nothing else |
| App.DeletarUsuario | app.py:235-248 | an administrator can never delete their own account; another account is removed only if it owns no entries, and nothing else changes |
| Guarded.AprovarResgate | app.py:377-396 | a decision on an entry that is not `pendente` is refused. Otherwise the status moves along the workflow, and a rejection subtracts the entry's amount, reversing the hold, when the new balance fits its column |
| Guarded.ConfirmarEntrega | app.py:288-296 | delivery is recorded only for a `concluido` entry |
| Invariants.RegistrarTransacaoKeepsValid | app.py:98-106 | a credit keeps every balance equal to the sum of its entries |
| Invariants.CreditoManualKeepsValid | app.py:180-186 | the manual credit action keeps the books |
| Invariants.ResgatarProdutoKeepsValid | app.py:357-372 | a redemption request keeps the books (the hold is itself an entry) |
| Invariants.GuardedAprovarResgateKeepsValid | app.py:386-395 | the guarded decision keeps the books |
| Invariants.GuardedConfirmarEntregaKeepsValid | app.py:294-296 | the guarded delivery confirmation keeps the books |
| Invariants.AtivarUsuarioKeepsValid | app.py:320-322 | activation keeps the books |
| Invariants.DeletarUsuarioKeepsValid | app.py:241-247 | deletion keeps the books and every entry's owner existing |
| Invariants.NewUserKeepsValid | models.py:16 | a new account with default balance 0 can join a consistent store |
| Invariants.StepKeepsValid | app.py:178-396 | any single request keeps the books, with the guarded decision and delivery in place of app.py's |
| Invariants.RunKeepsValid | app.py:178-396 | with the guarded decision and delivery, after any sequence of requests each balance is its credits plus the holds of unrejected redemptions |
| Invariants.StepKeepsEntries | models.py:34-41 | no request, guarded or as written, changes an entry's owner, amount or description |
| Invariants.StepFollowsWorkflow | models.py:40-41 | with the guarded decisions, an entry's status stays or moves pendente->concluido->entregue or pendente->reprovado |
| Invariants.GuardedAgreesOnPendingHold | app.py:386-393 | on a pending entry holding points, the guarded and the written decision are the same |
| Invariants.GuardedAgreesOnConfirmed | app.py:294-296 | on a confirmed entry, the guarded and the written delivery are the same |
| Invariants.RequestThenRejectRestoresBalance | app.py:362-369 | a request followed by a (guarded) rejection leaves the painter's account exactly as before |
| Invariants.RequestThenRejectAsWritten | app.py:389-392 | the written rejection also restores the account when the price is not negative |
| Findings.RejectTwiceRefundsTwice | app.py:389-392 | rejecting the same entry twice refunds abs(pontos) twice |
| Findings.RejectTwiceBreaksLedger | app.py:389-392 | after a double rejection of a non-zero pending entry, the balance no longer matches the entries |
| Findings.ConfirmAfterRejectKeepsRefund | app.py:386-387 | a rejected entry can be confirmed and the refund stays; the guarded handler refuses |
| Findings.RejectCreditBreaksLedger | app.py:389-392 | on a consistent store, rejecting an approved credit of positive points succeeds and leaves the balance no longer equal to the entries; the guarded handler refuses it |
| Findings.DeliverAfterRejectBreaksLedger | app.py:294-295 | marking a rejected, already refunded entry `entregue` counts its hold again, so the balance no longer matches the entries; the guarded handler refuses |
| Findings.GuardedRejectRefundsOnce | app.py:389-392 | with the guard, one rejection refunds once and every later decision is refused |
| Findings.NegativePriceRejectCreditsTwice | app.py:357-392 | with a negative price, a request and its rejection leave the painter richer by twice the absolute price |
| Findings.RedemptionScenario | app.py:357-392 | 2000 points, price 2000: the balance goes to 0 with a pending -2000 entry; a rejection restores 2000; a later confirmation is refused by the guard and accepted by the written handler |
| Findings.NewUserAwaitsActivation | models.py:19-21 | a freshly created painter account cannot log in, even with the right password |
| Findings.ActivationOpensLogin | app.py:320-321 | after activation the account logs in with its password |

## Left out

- Flask routing, redirects, flash messages and template rendering: presentation only. A request refused before any change is an `Err`. A request the handler accepts but that changes nothing is `Ok` with the same store: a manual credit with no target or zero points, or an unknown decision action.
- SQLAlchemy sessions and queries: each handler is one atomic step over the maps. Concurrent requests are not modelled.
- The timestamp column and `datetime.utcnow`: wall-clock values with no invariant.
- Catalog management (`admin_premios`, `excluir_produto`), the object-store upload, `catalogo`, `extrato`, `index`, CSV export and `seed_data`: outside the ledger core. Products are only read.
- `register`, `admin_novo_usuario` and `admin_editar_usuario`: user creation is covered only by `NewUser` and `Invariants.NewUserKeepsValid`.
- Login: the e-mail lookup is a parameter (`found`), and the password comparison is treated as plain equality, not as a security mechanism. Flask-Login session handling is left out.
- CreditoManual: the form's `user_id` is given already resolved to an existing id or `None`. A value the database cannot read as an id commits nothing, as does `None`.
- FormInput.ParseInt: models only ASCII whitespace and ASCII digits. Python also accepts other Unicode decimal digits and spaces. The 4300-digit limit of recent Python versions is not modelled.
- FormInput.Lower: folds ASCII letters only. No non-ASCII character lowers to text that is an allowed extension, so `AllowedFile` gives the same verdict.
- Column widths assume PostgreSQL. Under SQLite, which the commented-out URI at app.py:21 names, neither the INTEGER range nor `String(255)` is enforced. The string widths of user and product columns, and the driver's refusal of a NUL in them, are not modelled, because no modelled handler writes them.
- Models.User: the `ativo` column is nullable. The model uses `false`, which `not user.ativo` treats the same as a null.
- App.DeletarUsuario: refusing to delete an account that owns entries comes from the database, not from app.py. `user_id` is NOT NULL (models.py:36), and removing a parent row nulls its children by default.

## Findings

| source | as written | input that shows it | evidently intended | confidence | as-written member | corrected member |
|---|---|---|---|---|---|---|
| app.py:389-392 | `reprovar` refunds abs(pontos) without checking the entry is still `pendente` | a pending entry of -2000, rejected twice: the owner gains 4000 against a 2000 hold, and the balance no longer equals the entries | only a pending entry can be decided, so a rejection refunds once | high, not executed | Findings.RejectTwiceRefundsTwice | Findings.GuardedRejectRefundsOnce |
| app.py:294-295 | `admin_confirmar_entrega` sets `entregue` without checking the entry is `concluido` | a pending entry of -2000 rejected (refunded), then marked delivered: the -2000 hold counts again while the refund stays | only a confirmed redemption can be delivered | high, not executed | Findings.DeliverAfterRejectBreaksLedger | Invariants.GuardedConfirmarEntregaKeepsValid |
| app.py:364-391 | the refund is abs(pontos), which equals the hold only when pontos <= 0 | a product priced -100 (parse_int accepts "-100"): the request credits 100, and rejecting it credits 100 more instead of taking it back | rejecting a request reverses its hold exactly | medium, not executed | Findings.NegativePriceRejectCreditsTwice | Invariants.RequestThenRejectRestoresBalance |
