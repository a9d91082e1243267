/** The composite natural key of a transaction: (requestId, cardId). */
module TransactionKeys {

  datatype TransactionKey = TransactionKey(requestId: string, cardId: string)

  /** What `equals(Object o)` can be handed: null, another key, or an object
      of some other class. */
  datatype JavaValue = Null | KeyValue(key: TransactionKey) | OtherObject(className: string)

  /** `TransactionKey.equals`: identity, then null / class check, then the
      two fields compared. Java's `equals` coincides with the datatype's
      structural equality. */
  function Equals(k: TransactionKey, o: JavaValue): (r: bool)
    ensures r <==> o == KeyValue(k)
  {
    match o
    case Null => false
    case OtherObject(_) => false
    case KeyValue(that) => k.requestId == that.requestId && k.cardId == that.cardId
  }

  lemma EqualsIffFieldsEqual(k: TransactionKey, that: TransactionKey)
    ensures Equals(k, KeyValue(that)) <==> k.requestId == that.requestId && k.cardId == that.cardId
  {
  }

  lemma EqualsIsReflexive(k: TransactionKey)
    ensures Equals(k, KeyValue(k))
  {
  }

  lemma NeverEqualsNullOrOtherClass(k: TransactionKey, className: string)
    ensures !Equals(k, Null) && !Equals(k, OtherObject(className))
  {
  }

  const TwoTo32: int := 0x1_0000_0000
  const TwoTo31: int := 0x8000_0000

  /** Java `int` arithmetic: the value wrapped into [-2^31, 2^31). */
  function Int32(x: int): (r: int)
    ensures -TwoTo31 <= r < TwoTo31
    ensures (x - r) % TwoTo32 == 0
  {
    (x + TwoTo31) % TwoTo32 - TwoTo31
  }

  /** `String.hashCode`: h = 31 * h + c over the characters, in `int`. */
  function StringHash(s: string): (h: int)
    ensures -TwoTo31 <= h < TwoTo31
  {
    if s == [] then 0 else Int32(31 * StringHash(s[..|s| - 1]) + s[|s| - 1] as int)
  }

  /** `TransactionKey.hashCode` = `Objects.hash(requestId, cardId)`, which is
      31 * (31 * 1 + hash(requestId)) + hash(cardId) in `int`. */
  function HashCode(k: TransactionKey): (h: int)
    ensures -TwoTo31 <= h < TwoTo31
  {
    Int32(31 * Int32(31 * 1 + StringHash(k.requestId)) + StringHash(k.cardId))
  }

  /** The equals/hashCode contract: equal keys hash alike. */
  lemma EqualKeysHaveEqualHashCodes(k: TransactionKey, that: TransactionKey)
    requires Equals(k, KeyValue(that))
    ensures HashCode(k) == HashCode(that)
  {
  }
}
