/**
 * The three persisted record types of the points platform (models.py) and the store
 * that holds them. Every column of the source that the ledger reads or writes is a field
 * here; the timestamp column is left out.
 */
module Models {
  import opened Wrappers

  /** Primary keys of all three tables. */
  type Id = nat

  /** The range of an INTEGER column (`db.Integer`) in PostgreSQL: 32-bit signed. */
  const INTEGER_MIN: int := -0x8000_0000
  const INTEGER_MAX: int := 0x7FFF_FFFF

  /** The width of the transaction description column, `String(255)`. */
  const DESCRICAO_MAX: nat := 255

  /** `x` can be stored in an INTEGER column; a larger value makes the commit fail. */
  predicate FitsInteger(x: int)
  {
    INTEGER_MIN <= x <= INTEGER_MAX
  }

  /** The two role names the code compares against. The column is free text. */
  const ADMIN: string := "admin"
  const PINTOR: string := "pintor"

  /** A platform account. `saldoTotal` is the materialised point balance. */
  datatype User = User(
    nome: string,
    email: string,
    cpfCnpj: string,
    senha: string,
    saldoTotal: int,
    role: string,
    ativo: bool)

  /** A catalog item that can be redeemed for `valorPontos` points. */
  datatype Product = Product(
    nome: string,
    descricao: string,
    valorPontos: int,
    imagemUrl: string,
    categoria: string)

  /** The values the code writes into the `status` column of a transaction. */
  datatype Status = Aprovado | Pendente | Concluido | Entregue | Reprovado

  /** A ledger entry: a signed amount of points owned by one user. */
  datatype Transaction = Transaction(
    userId: Id,
    pontos: int,
    descricao: string,
    status: Status)

  /** The one character the PostgreSQL driver refuses in any text value. */
  const NUL: char := '\0'

  /** `w` consists of space characters only (PostgreSQL pads and clips with these). */
  predicate AllBlanks(w: string)
  {
    forall i :: 0 <= i < |w| ==> w[i] == ' '
  }

  /**
   * What the `String(255)` description column holds after a commit of text `d`, or None
   * when the commit fails. PostgreSQL keeps text of at most 255 characters as it is, clips
   * longer text to 255 characters when everything past them is spaces, and refuses any
   * other longer text; the driver refuses a NUL anywhere in the text.
   */
  function StoredDescription(d: string): (r: Option<string>)
    ensures r.Some? <==> NUL !in d && (|d| <= DESCRICAO_MAX || AllBlanks(d[DESCRICAO_MAX..]))
    ensures r.Some? ==>
      && |r.value| <= DESCRICAO_MAX
      && r.value <= d
      && AllBlanks(d[|r.value|..])
      && (|d| <= DESCRICAO_MAX ==> r.value == d)
      && (|d| > DESCRICAO_MAX ==> |r.value| == DESCRICAO_MAX)
  {
    if NUL in d then None
    else if |d| <= DESCRICAO_MAX then Some(d)
    else if AllBlanks(d[DESCRICAO_MAX..]) then Some(d[..DESCRICAO_MAX])
    else None
  }

  /** Committing the stored description again stores it unchanged. */
  lemma StoredDescriptionIsStable(d: string)
    requires StoredDescription(d).Some?
    ensures StoredDescription(StoredDescription(d).value) == StoredDescription(d)
  {
  }

  /**
   * A description of exactly 255 characters followed by any run of spaces is stored as
   * those 255 characters: the commit succeeds.
   */
  lemma StoredDescriptionClipsBlanks(x: string, w: string)
    requires |x| == DESCRICAO_MAX && NUL !in x && AllBlanks(w)
    ensures StoredDescription(x + w) == Some(x)
  {
    if |w| == 0 { assert x + w == x; }
    assert (x + w)[DESCRICAO_MAX..] == w;
    assert (x + w)[..DESCRICAO_MAX] == x;
    assert NUL !in x + w by {
      forall i | 0 <= i < |x + w|
        ensures (x + w)[i] != NUL
      {
        if i >= |x| { assert (x + w)[i] == w[i - |x|]; }
      }
    }
  }

  /** Every column of the entry can hold the value given to it. */
  predicate EntryFits(t: Transaction)
  {
    FitsInteger(t.pontos) && |t.descricao| <= DESCRICAO_MAX
  }

  /**
   * The whole database. `nextTxId` is the value the transaction table's id sequence
   * hands out next.
   */
  datatype Store = Store(
    users: map<Id, User>,
    products: map<Id, Product>,
    transactions: map<Id, Transaction>,
    nextTxId: Id)

  /** A user row built with only the columns that have no default supplied. */
  function NewUser(nome: string, email: string, cpfCnpj: string, senha: string): (u: User)
    ensures u.saldoTotal == 0
    ensures u.role == PINTOR && !u.ativo
    ensures u.nome == nome && u.email == email && u.cpfCnpj == cpfCnpj && u.senha == senha
  {
    User(nome, email, cpfCnpj, senha, 0, PINTOR, false)
  }

  /** A transaction row built without an explicit status. */
  function NewTransaction(userId: Id, pontos: int, descricao: string): (t: Transaction)
    ensures t.status == Aprovado
    ensures t.userId == userId && t.pontos == pontos && t.descricao == descricao
  {
    Transaction(userId, pontos, descricao, Aprovado)
  }

  /**
   * The status changes the redemption workflow is designed to make:
   * pendente -> concluido -> entregue, and pendente -> reprovado.
   */
  predicate CanTransition(from: Status, to: Status)
  {
    || (from == Pendente && to == Concluido)
    || (from == Pendente && to == Reprovado)
    || (from == Concluido && to == Entregue)
  }

  /** `r` differs from `s` at most in user `uid` and transaction `tid`. */
  ghost predicate OnlyTouches(s: Store, r: Store, uid: Id, tid: Id)
  {
    && r.products == s.products
    && r.users.Keys == s.users.Keys
    && (forall u :: u in s.users && u != uid ==> r.users[u] == s.users[u])
    && r.transactions.Keys <= s.transactions.Keys + {tid}
    && (forall k :: k in s.transactions && k != tid ==> k in r.transactions && r.transactions[k] == s.transactions[k])
  }

  /** Every entry of `s` is still in `r` with the same owner, amount and description. */
  ghost predicate EntriesKept(s: Store, r: Store)
  {
    forall k :: k in s.transactions ==>
      && k in r.transactions
      && r.transactions[k].userId == s.transactions[k].userId
      && r.transactions[k].pontos == s.transactions[k].pontos
      && r.transactions[k].descricao == s.transactions[k].descricao
  }
}
