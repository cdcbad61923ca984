/** The transaction_history entity: one immutable row per withdrawal,
    keyed by the client's transaction id. */
module TransactionEntity {
  import opened Wrappers

  /** A java.util.UUID: 128 bits. */
  type Uuid = x: nat | x < 0x1_0000_0000_0000_0000_0000_0000_0000_0000

  /** A java.lang.Long wallet id. */
  type WalletId = x: int | -0x8000_0000_0000_0000 <= x < 0x8000_0000_0000_0000

  /** Largest magnitude, in minor units, of a DECIMAL(19, 2) column. */
  const MaxColumnMinorUnits: int := 9_999_999_999_999_999_999

  /** Money is held in minor units (hundredths); the columns have scale 2. */
  predicate FitsMoneyColumn(x: int) {
    -MaxColumnMinorUnits <= x <= MaxColumnMinorUnits
  }

  /** Length of the VARCHAR columns that store the enum names. */
  const EnumColumnLength: nat := 20

  datatype TransactionType = Deposit | Withdrawal

  datatype TransactionStatus = Success | Failed

  /** The name an enum constant is stored under (EnumType.STRING). */
  function TypeName(t: TransactionType): (name: string)
    ensures 0 < |name| <= EnumColumnLength
  {
    match t
    case Deposit => "DEPOSIT"
    case Withdrawal => "WITHDRAWAL"
  }

  function StatusName(s: TransactionStatus): (name: string)
    ensures 0 < |name| <= EnumColumnLength
  {
    match s
    case Success => "SUCCESS"
    case Failed => "FAILED"
  }

  /** Stored names identify the enum constant they came from. */
  lemma EnumNamesInjective(t1: TransactionType, t2: TransactionType, s1: TransactionStatus, s2: TransactionStatus)
    ensures TypeName(t1) == TypeName(t2) <==> t1 == t2
    ensures StatusName(s1) == StatusName(s2) <==> s1 == s2
  {
    assert TypeName(Deposit)[0] != TypeName(Withdrawal)[0];
    assert StatusName(Success)[0] != StatusName(Failed)[0];
  }

  /** The builder constructor: the six columns the application sets. The
      surrogate id and createdAt are filled in by the store. */
  datatype TransactionHistory = TransactionHistory(
    transactionId: Uuid,
    walletId: WalletId,
    txType: TransactionType,
    amount: int,
    balanceSnapshot: int,
    status: TransactionStatus)

  /** The table, indexed by the unique transactionId column. */
  type HistoryTable = map<Uuid, TransactionHistory>

  /** Each row sits under its own transactionId, so no id has two rows. */
  ghost predicate KeyedById(t: HistoryTable) {
    forall k :: k in t ==> t[k].transactionId == k
  }

  /** Every column is updatable = false: later tables keep every earlier row
      as it was. */
  ghost predicate AppendOnly(before: HistoryTable, after: HistoryTable) {
    forall k :: k in before ==> k in after && after[k] == before[k]
  }

  lemma AppendOnlyTransitive(t1: HistoryTable, t2: HistoryTable, t3: HistoryTable)
    requires AppendOnly(t1, t2) && AppendOnly(t2, t3)
    ensures AppendOnly(t1, t3)
  {
  }

  /** historyRepository.save: inserts the row, or fails on the unique
      constraint if a row with the same transactionId exists. */
  function Save(t: HistoryTable, h: TransactionHistory): (r: Option<HistoryTable>)
    ensures r.Some? <==> h.transactionId !in t
    ensures r.Some? ==> AppendOnly(t, r.value) && r.value.Keys == t.Keys + {h.transactionId}
    ensures r.Some? ==> h.transactionId in r.value && r.value[h.transactionId] == h
    ensures r.Some? ==> |r.value| == |t| + 1
    ensures r.Some? && KeyedById(t) ==> KeyedById(r.value)
  {
    if h.transactionId in t then None else Some(t[h.transactionId := h])
  }
}
