/**
 * The saga context: a key-to-value data map, a metadata map, a compensating
 * flag and a retry counter, shared by the steps of one saga instance.
 *
 * Map values are Java objects of a few classes; `Value` tags each one with
 * its class so that a typed read of the wrong class yields "absent" and a
 * hard cast of the wrong class is a ClassCastException.
 */
module Context {
  import opened Base
  import opened Enums

  /** A value stored in a context map; `NullV` is a stored or missing `null`. */
  datatype Value =
    | NullV
    | LongV(n: int)
    | IntV(i: Int32)
    | DecimalV(d: Money)
    | StringV(s: string)
    | BoolV(b: bool)
    | TxStatusV(status: TxStatus)
    | TxTypeV(txType: TxType)

  /** The classes a typed read can ask for. */
  datatype JavaClass =
    | LongClass
    | IntegerClass
    | BigDecimalClass
    | StringClass
    | BooleanClass
    | TxStatusClass
    | TxTypeClass
    | ObjectClass

  /** `type.isInstance(v)`: false for null, true for `Object`, else the tags match. */
  predicate IsInstance(v: Value, c: JavaClass)
  {
    match v
    case NullV => false
    case LongV(_) => c == LongClass || c == ObjectClass
    case IntV(_) => c == IntegerClass || c == ObjectClass
    case DecimalV(_) => c == BigDecimalClass || c == ObjectClass
    case StringV(_) => c == StringClass || c == ObjectClass
    case BoolV(_) => c == BooleanClass || c == ObjectClass
    case TxStatusV(_) => c == TxStatusClass || c == ObjectClass
    case TxTypeV(_) => c == TxTypeClass || c == ObjectClass
  }

  function ClassCast(target: string): Exception
  {
    Exception(ClassCastException, "value cannot be cast to class " + target)
  }

  /** `(BigDecimal) v`: null passes through as null, any other class fails. */
  function CastDecimal(v: Value): (r: Result<Option<Money>>)
    ensures r.Ok? <==> v.NullV? || v.DecimalV?
    ensures v.DecimalV? ==> r == Ok(Some(v.d))
    ensures v.NullV? ==> r == Ok(None)
    ensures r.Err? ==> r.error.kind == ClassCastException
  {
    match v
    case NullV => Ok(None)
    case DecimalV(d) => Ok(Some(d))
    case _ => Err(ClassCast("java.math.BigDecimal"))
  }

  /** `(Long) v`. */
  function CastLong(v: Value): (r: Result<Option<int>>)
    ensures r.Ok? <==> v.NullV? || v.LongV?
    ensures v.LongV? ==> r == Ok(Some(v.n))
    ensures v.NullV? ==> r == Ok(None)
    ensures r.Err? ==> r.error.kind == ClassCastException
  {
    match v
    case NullV => Ok(None)
    case LongV(n) => Ok(Some(n))
    case _ => Err(ClassCast("java.lang.Long"))
  }

  /** `(String) v`. */
  function CastString(v: Value): (r: Result<Option<string>>)
    ensures r.Ok? <==> v.NullV? || v.StringV?
    ensures v.StringV? ==> r == Ok(Some(v.s))
    ensures v.NullV? ==> r == Ok(None)
    ensures r.Err? ==> r.error.kind == ClassCastException
  {
    match v
    case NullV => Ok(None)
    case StringV(s) => Ok(Some(s))
    case _ => Err(ClassCast("java.lang.String"))
  }

  /** `(TransactionStatus) v`. */
  function CastTxStatus(v: Value): (r: Result<Option<TxStatus>>)
    ensures r.Ok? <==> v.NullV? || v.TxStatusV?
    ensures v.TxStatusV? ==> r == Ok(Some(v.status))
    ensures v.NullV? ==> r == Ok(None)
    ensures r.Err? ==> r.error.kind == ClassCastException
  {
    match v
    case NullV => Ok(None)
    case TxStatusV(s) => Ok(Some(s))
    case _ => Err(ClassCast("TransactionStatus"))
  }

  /** The value stored for a nullable transaction status. */
  function StatusValue(s: Option<TxStatus>): (v: Value)
    ensures CastTxStatus(v) == Ok(s)
  {
    match s
    case None => NullV
    case Some(st) => TxStatusV(st)
  }

  /** `v.toString()` for a non-null value that is not a `BigDecimal`. */
  function PlainText(v: Value): string
    requires !v.NullV? && !v.DecimalV?
  {
    match v
    case LongV(n) => Show(n)
    case IntV(i) => Show(i)
    case StringV(s) => s
    case BoolV(b) => if b then "true" else "false"
    case TxStatusV(s) => TxStatusName(s)
    case TxTypeV(t) => t.name
  }

  function NullPointer(what: string): Exception
  {
    Exception(NullPointerException, what + " is null")
  }

  function NumberFormat(text: string): Exception
  {
    Exception(NumberFormatException, "For input string: \"" + text + "\"")
  }

  /**
   * `new BigDecimal(v.toString())`: null throws NullPointerException, a
   * `BigDecimal` gives itself back, decimal text (a sign, digits with an
   * optional point, an optional exponent) gives its number, any other text
   * throws NumberFormatException.
   */
  function ParseDecimal(v: Value): (r: Result<Money>)
    ensures v.NullV? ==> r.Err? && r.error.kind == NullPointerException
    ensures v.DecimalV? ==> r == Ok(v.d)
  {
    match v
    case NullV => Err(NullPointer("amount"))
    case DecimalV(d) => Ok(d)
    case _ =>
      var text := PlainText(v);
      match ParseDecimalText(text)
      case Some(n) => Ok(n)
      case None => Err(NumberFormat(text))
  }

  /**
   * `Long.valueOf(v.toString())`: null throws NullPointerException, a whole
   * `BigDecimal` gives its number, integer text gives its number, any other
   * text throws NumberFormatException.
   */
  function ParseLong(v: Value): (r: Result<int>)
    ensures v.NullV? ==> r.Err? && r.error.kind == NullPointerException
  {
    match v
    case NullV => Err(NullPointer("id"))
    case DecimalV(d) => if d.Floor as real == d then Ok(d.Floor) else Err(NumberFormat("decimal"))
    case _ =>
      var text := PlainText(v);
      match ParseInteger(text)
      case Some(n) => Ok(n)
      case None => Err(NumberFormat(text))
  }

  /** An amount held as text with a fraction is read as the decimal it spells. */
  lemma FractionAmountIsRead()
    ensures ParseDecimal(StringV("1.5")) == Ok(1.5)
  {
    FractionTextIsDecimal();
  }

  /** A `Long` or an `Integer` read back by `Long.valueOf` through its text is the same number. */
  lemma ParseNumbers(v: Value)
    requires v.LongV? || v.IntV?
    ensures v.LongV? ==> ParseLong(v) == Ok(v.n)
    ensures v.IntV? ==> ParseLong(v) == Ok(v.i as int)
  {
    if v.LongV? {
      ShowParseRoundTrip(v.n);
    } else {
      ShowParseRoundTrip(v.i);
    }
  }

  /** So is one read back by `new BigDecimal` through its text. */
  lemma ParseNumbersAsDecimals(v: Value)
    requires v.LongV? || v.IntV?
    ensures v.LongV? ==> ParseDecimal(v) == Ok(v.n as real)
    ensures v.IntV? ==> ParseDecimal(v) == Ok(v.i as real)
  {
    var n := if v.LongV? then v.n else v.i as int;
    ShowParseRoundTrip(n);
    IntegerTextIsDecimal(Show(n));
  }

  /** A value of `SagaContext`: what one saved snapshot of it holds. */
  datatype ContextState = ContextState(
    sagaInstanceId: Option<int>,
    sagaType: Option<string>,
    data: map<string, Value>,
    metadata: map<string, Value>,
    compensating: bool,
    retryCount: Int32)
  {
    /** `put`: afterwards `key` reads back `value`; every other data key and the metadata are untouched. */
    function Put(key: string, value: Value): (r: ContextState)
      ensures r.Get(key) == value && r.ContainsKey(key)
      ensures forall k :: k != key ==> r.Get(k) == Get(k) && (r.ContainsKey(k) <==> ContainsKey(k))
      ensures r.metadata == metadata && r.compensating == compensating && r.retryCount == retryCount
      ensures r.sagaInstanceId == sagaInstanceId && r.sagaType == sagaType
    {
      this.(data := data[key := value])
    }

    /** `get`: the stored value, or null when the key is absent. */
    function Get(key: string): (v: Value)
      ensures key !in data ==> v.NullV?
      ensures key in data ==> v == data[key]
    {
      if key in data then data[key] else NullV
    }

    /** Typed `get`: the stored value if it is non-null and of class `c`, else null. */
    function GetTyped(key: string, c: JavaClass): (v: Value)
      ensures !v.NullV? <==> key in data && IsInstance(data[key], c)
      ensures !v.NullV? ==> v == data[key]
    {
      var v := Get(key);
      if IsInstance(v, c) then v else NullV
    }

    /** `getOptional`: present iff a non-null value is stored. */
    function GetOptional(key: string): (r: Option<Value>)
      ensures r.Some? <==> key in data && !data[key].NullV?
      ensures r.Some? ==> r.value == data[key]
    {
      if Get(key).NullV? then None else Some(Get(key))
    }

    /** `containsKey`: true even when the stored value is null. */
    predicate ContainsKey(key: string)
      ensures !ContainsKey(key) ==> Get(key).NullV?
      ensures ContainsKey(key) ==> Get(key) == data[key]
    {
      key in data
    }

    /** `remove`: the new context and the previous value (null when there was none). */
    function Remove(key: string): (r: (ContextState, Value))
      ensures !r.0.ContainsKey(key) && r.1 == Get(key)
      ensures forall k :: k != key ==> r.0.Get(k) == Get(k) && (r.0.ContainsKey(k) <==> ContainsKey(k))
      ensures r.0.metadata == metadata && r.0.compensating == compensating && r.0.retryCount == retryCount
      ensures r.0.sagaInstanceId == sagaInstanceId && r.0.sagaType == sagaType
    {
      (this.(data := data - {key}), Get(key))
    }

    /** `putMetadata`: changes the metadata map only, never the data. */
    function PutMetadata(key: string, value: Value): (r: ContextState)
      ensures r.GetMetadata(key) == value
      ensures forall k :: k != key ==> r.GetMetadata(k) == GetMetadata(k)
      ensures r.data == data && r.compensating == compensating && r.retryCount == retryCount
      ensures r.sagaInstanceId == sagaInstanceId && r.sagaType == sagaType
    {
      this.(metadata := metadata[key := value])
    }

    /** `getMetadata`: the stored metadata value, or null. */
    function GetMetadata(key: string): (v: Value)
      ensures key !in metadata ==> v.NullV?
      ensures key in metadata ==> v == metadata[key]
    {
      if key in metadata then metadata[key] else NullV
    }

    /** Typed `getMetadata`: the stored value if it is non-null and of class `c`, else null. */
    function GetMetadataTyped(key: string, c: JavaClass): (v: Value)
      ensures !v.NullV? <==> key in metadata && IsInstance(metadata[key], c)
      ensures !v.NullV? ==> v == metadata[key]
    {
      var v := GetMetadata(key);
      if IsInstance(v, c) then v else NullV
    }

    /** `incrementRetryCount`: one more, wrapping as an `Integer` does. */
    function IncrementRetryCount(): (r: ContextState)
      ensures retryCount < 0x7fff_ffff ==> r.retryCount == retryCount + 1
      ensures r == this.(retryCount := r.retryCount)
    {
      this.(retryCount := IncrementInt32(retryCount))
    }

    /** `resetRetryCount`. */
    function ResetRetryCount(): (r: ContextState)
      ensures r.retryCount == 0 && r == this.(retryCount := 0)
    {
      this.(retryCount := 0)
    }

    /** `startCompensation`: only the flag changes. */
    function StartCompensation(): (r: ContextState)
      ensures r.IsCompensating() && r == this.(compensating := true)
    {
      this.(compensating := true)
    }

    predicate IsCompensating()
      ensures IsCompensating() <==> this.(compensating := true) == this
    {
      compensating
    }

    /** `clear`: empties the data map and leaves the metadata alone. */
    function Clear(): (r: ContextState)
      ensures r.Size() == 0 && forall k :: !r.ContainsKey(k)
      ensures r.metadata == metadata && r.compensating == compensating && r.retryCount == retryCount
      ensures r.sagaInstanceId == sagaInstanceId && r.sagaType == sagaType
    {
      this.(data := map[])
    }

    /** `size`: the number of data entries. */
    function Size(): (n: nat)
      ensures n == 0 <==> forall k :: !ContainsKey(k)
      ensures forall k :: ContainsKey(k) ==> n > 0
    {
      assert data != map[] ==> exists k :: ContainsKey(k) by {
        if data != map[] {
          var k :| k in data;
          assert ContainsKey(k);
        }
      }
      |data|
    }
  }

  /**
   * `SagaContext.builder()...build()` with the given instance id, type and
   * data: the metadata starts empty, compensating false, retryCount 0.
   */
  function Build(sagaInstanceId: Option<int>, sagaType: Option<string>, data: map<string, Value>): (c: ContextState)
    ensures c.metadata == map[] && !c.compensating && c.retryCount == 0
    ensures c.data == data && c.sagaInstanceId == sagaInstanceId && c.sagaType == sagaType
  {
    ContextState(sagaInstanceId, sagaType, data, map[], false, 0)
  }

  /** Putting a key twice keeps only the second value; putting distinct keys commutes. */
  lemma PutPut(c: ContextState, k1: string, v1: Value, k2: string, v2: Value)
    ensures k1 == k2 ==> c.Put(k1, v1).Put(k2, v2) == c.Put(k2, v2)
    ensures k1 != k2 ==> c.Put(k1, v1).Put(k2, v2) == c.Put(k2, v2).Put(k1, v1)
  {
    if k1 != k2 {
      assert c.Put(k1, v1).Put(k2, v2).data == c.Put(k2, v2).Put(k1, v1).data;
    } else {
      assert c.Put(k1, v1).Put(k2, v2).data == c.Put(k2, v2).data;
    }
  }

  /** Adding a new key grows the size by one; overwriting one keeps the size. */
  lemma PutSize(c: ContextState, key: string, value: Value)
    ensures c.ContainsKey(key) ==> c.Put(key, value).Size() == c.Size()
    ensures !c.ContainsKey(key) ==> c.Put(key, value).Size() == c.Size() + 1
  {
  }

  /**
   * `b` differs from `a` at most in the data entries under `keys`: every other
   * entry, the metadata and the other fields are the same.
   */
  ghost predicate SameOutside(a: ContextState, b: ContextState, keys: set<string>)
  {
    && b.metadata == a.metadata && b.compensating == a.compensating && b.retryCount == a.retryCount
    && b.sagaInstanceId == a.sagaInstanceId && b.sagaType == a.sagaType
    && forall k :: k !in keys ==> b.Get(k) == a.Get(k) && (b.ContainsKey(k) <==> a.ContainsKey(k))
  }

  /**
   * A `SagaContext` object: the mutable context a step receives.
   * Its methods change the fields as the corresponding `ContextState`
   * functions say.
   */
  class SagaContext {
    var sagaInstanceId: Option<int>
    var sagaType: Option<string>
    var data: map<string, Value>
    var metadata: map<string, Value>
    var compensating: bool
    var retryCount: Int32

    /** The current field values. */
    function Snapshot(): ContextState
      reads this
    {
      ContextState(sagaInstanceId, sagaType, data, metadata, compensating, retryCount)
    }

    /** A context object holding the given state (the builder, or a read of a saved snapshot). */
    constructor FromState(s: ContextState)
      ensures Snapshot() == s
    {
      sagaInstanceId := s.sagaInstanceId;
      sagaType := s.sagaType;
      data := s.data;
      metadata := s.metadata;
      compensating := s.compensating;
      retryCount := s.retryCount;
    }

    method Put(key: string, value: Value)
      modifies this
      ensures Snapshot() == old(Snapshot()).Put(key, value)
    {
      data := data[key := value];
    }

    method Remove(key: string) returns (previous: Value)
      modifies this
      ensures (Snapshot(), previous) == old(Snapshot()).Remove(key)
    {
      previous := if key in data then data[key] else NullV;
      data := data - {key};
    }

    method PutMetadata(key: string, value: Value)
      modifies this
      ensures Snapshot() == old(Snapshot()).PutMetadata(key, value)
    {
      metadata := metadata[key := value];
    }

    method IncrementRetryCount()
      modifies this
      ensures Snapshot() == old(Snapshot()).IncrementRetryCount()
    {
      retryCount := IncrementInt32(retryCount);
    }

    method ResetRetryCount()
      modifies this
      ensures Snapshot() == old(Snapshot()).ResetRetryCount()
    {
      retryCount := 0;
    }

    method StartCompensation()
      modifies this
      ensures Snapshot() == old(Snapshot()).StartCompensation()
    {
      compensating := true;
    }

    method Clear()
      modifies this
      ensures Snapshot() == old(Snapshot()).Clear()
    {
      data := map[];
    }

    method SetSagaInstanceId(id: Option<int>)
      modifies this
      ensures Snapshot() == old(Snapshot()).(sagaInstanceId := id)
    {
      sagaInstanceId := id;
    }

    /** `copy`: a new object with equal fields and its own maps. */
    method Copy() returns (c: SagaContext)
      ensures fresh(c) && c.Snapshot() == Snapshot()
    {
      c := new SagaContext.FromState(Snapshot());
    }
  }

  /** A put on a copy leaves the original context as it was. */
  method PutOnCopy(original: SagaContext, key: string, value: Value) returns (c: SagaContext)
    ensures fresh(c) && c.Snapshot() == original.Snapshot().Put(key, value)
    ensures original.Snapshot() == old(original.Snapshot())
  {
    c := original.Copy();
    c.Put(key, value);
  }
}
