/**
 * The message store: a key-value store holding one shared integer counter under
 * the key "max_id" and one entry per saved chat line, keyed by its id.
 * Entries written with an expiry carry their time-to-live; expiry itself (time
 * passing) is not modelled.
 */
module Store {
  import opened Options

  /** The store's keys: the counter key "max_id" and the stringified integer
      message ids. A decimal string never equals "max_id", so the two kinds of
      key never collide. */
  datatype Key = MaxIdKey | IdKey(id: int)

  /** A value as it was handed to SET: the counter is set from an integer, a
      message from a string. */
  datatype Value = IntVal(n: int) | StrVal(s: string)

  /** A stored value and its time-to-live in seconds (None: never expires). */
  datatype Entry = Entry(value: Value, ttl: Option<nat>)

  type Db = map<Key, Entry>

  /** The counter exists and holds an integer. */
  predicate HasCounter(m: Db) {
    MaxIdKey in m && m[MaxIdKey].value.IntVal?
  }

  function Counter(m: Db): int
    requires HasCounter(m)
  {
    m[MaxIdKey].value.n
  }

  function Lookup(m: Db, key: Key): Option<Value> {
    if key in m then Some(m[key].value) else None
  }

  /** The store after `_create_max_id`: the counter is set to 0 (without
      expiry) only when it is absent. */
  function WithCounter(m: Db): Db {
    if Lookup(m, MaxIdKey).None? then m[MaxIdKey := Entry(IntVal(0), None)] else m
  }

  /** The store after `save_message(msg)` from counter n: the message is written
      under id n+1 with the configured expiry, then the counter becomes n+1 with
      no expiry; every other key keeps its entry. */
  function Appended(m: Db, msg: string, ttl: nat): (r: Db)
    requires HasCounter(m)
    ensures HasCounter(r) && Counter(r) == Counter(m) + 1
    ensures IdKey(Counter(m) + 1) in r
    ensures r[IdKey(Counter(m) + 1)] == Entry(StrVal(msg), Some(ttl))
    ensures r[MaxIdKey].ttl == None
    ensures forall k :: k in r ==> k in m || k == IdKey(Counter(m) + 1)
    ensures forall k :: k in m && k != MaxIdKey && k != IdKey(Counter(m) + 1) ==> k in r && r[k] == m[k]
  {
    var n := Counter(m);
    m[IdKey(n + 1) := Entry(StrVal(msg), Some(ttl))][MaxIdKey := Entry(IntVal(n + 1), None)]
  }

  /** The store after saving `msgs` one after another, in order. */
  function SaveAll(m: Db, msgs: seq<string>, ttl: nat): (r: Db)
    requires HasCounter(m)
    ensures HasCounter(r) && Counter(r) == Counter(m) + |msgs|
    decreases |msgs|
  {
    if msgs == [] then m
    else SaveAll(Appended(m, msgs[0], ttl), msgs[1..], ttl)
  }

  /** `_create_max_id` run twice changes nothing the first run did not. */
  lemma WithCounterIdempotent(m: Db)
    ensures WithCounter(WithCounter(m)) == WithCounter(m)
  {
  }

  /** `_create_max_id` touches the counter key and nothing else; it leaves an
      existing counter alone and creates a missing one at 0 without expiry. */
  lemma WithCounterEffect(m: Db)
    ensures MaxIdKey in m ==> WithCounter(m) == m
    ensures MaxIdKey !in m ==> HasCounter(WithCounter(m)) && Counter(WithCounter(m)) == 0
                                && WithCounter(m)[MaxIdKey].ttl == None
    ensures WithCounter(m).Keys == m.Keys + {MaxIdKey}
    ensures forall k :: k in m && k != MaxIdKey ==> WithCounter(m)[k] == m[k]
  {
  }

  /** Saving messages in sequence from counter n stores msgs[i] under id
      n+1+i with the configured expiry. */
  lemma {:induction false} SaveAllStores(m: Db, msgs: seq<string>, ttl: nat, i: nat)
    requires HasCounter(m) && i < |msgs|
    ensures IdKey(Counter(m) + 1 + i) in SaveAll(m, msgs, ttl)
    ensures SaveAll(m, msgs, ttl)[IdKey(Counter(m) + 1 + i)] == Entry(StrVal(msgs[i]), Some(ttl))
    decreases |msgs|
  {
    var m1 := Appended(m, msgs[0], ttl);
    if i == 0 {
      SaveAllKeeps(m1, msgs[1..], ttl, IdKey(Counter(m) + 1));
    } else {
      SaveAllStores(m1, msgs[1..], ttl, i - 1);
      assert msgs[1..][i - 1] == msgs[i];
    }
  }

  /** Saving messages in sequence from counter n adds no key outside the ids
      n+1..n+|msgs|. */
  lemma {:induction false} SaveAllAddsOnly(m: Db, msgs: seq<string>, ttl: nat, k: Key)
    requires HasCounter(m)
    requires k in SaveAll(m, msgs, ttl)
    ensures k in m || (k.IdKey? && Counter(m) < k.id <= Counter(m) + |msgs|)
    decreases |msgs|
  {
    if msgs != [] {
      SaveAllAddsOnly(Appended(m, msgs[0], ttl), msgs[1..], ttl, k);
    }
  }

  /** Saving messages in sequence from counter n leaves every entry other than
      the counter and the ids n+1..n+|msgs| as it was. */
  lemma {:induction false} SaveAllKeeps(m: Db, msgs: seq<string>, ttl: nat, k: Key)
    requires HasCounter(m)
    requires k in m && k != MaxIdKey && !(k.IdKey? && Counter(m) < k.id <= Counter(m) + |msgs|)
    ensures k in SaveAll(m, msgs, ttl) && SaveAll(m, msgs, ttl)[k] == m[k]
    decreases |msgs|
  {
    if msgs != [] {
      SaveAllKeeps(Appended(m, msgs[0], ttl), msgs[1..], ttl, k);
    }
  }

  /** From a store whose counter was just created, N saves place the messages
      at ids 1..N in call order, with no gap and no repeat, and leave the
      counter at N. */
  lemma FreshLog(msgs: seq<string>, ttl: nat)
    ensures HasCounter(WithCounter(map[]))
    ensures var r := SaveAll(WithCounter(map[]), msgs, ttl);
            Counter(r) == |msgs| &&
            (forall i :: 1 <= i <= |msgs| ==> IdKey(i) in r && r[IdKey(i)] == Entry(StrVal(msgs[i - 1]), Some(ttl))) &&
            (forall k :: k in r ==> k == MaxIdKey || (k.IdKey? && 1 <= k.id <= |msgs|))
  {
    var m0 := WithCounter(map[]);
    assert m0 == map[MaxIdKey := Entry(IntVal(0), None)];
    var r := SaveAll(m0, msgs, ttl);
    forall i | 1 <= i <= |msgs|
      ensures IdKey(i) in r && r[IdKey(i)] == Entry(StrVal(msgs[i - 1]), Some(ttl))
    {
      SaveAllStores(m0, msgs, ttl, i - 1);
    }
    forall k | k in r
      ensures k == MaxIdKey || (k.IdKey? && 1 <= k.id <= |msgs|)
    {
      SaveAllAddsOnly(m0, msgs, ttl, k);
    }
  }

  /** The store connection of the worker: the key-value map it reads and
      writes, and the expiry configured for message entries. */
  class Redis {
    var data: Db
    const ttl: nat

    constructor (ttl: nat, contents: Db)
      ensures this.ttl == ttl && data == contents
    {
      this.ttl := ttl;
      data := contents;
    }

    /** GET key: the stored value, or None when the key is absent. */
    method Get(key: Key) returns (r: Option<Value>)
      ensures r.Some? <==> key in data
      ensures r.Some? ==> r.value == data[key].value
    {
      if key in data {
        r := Some(data[key].value);
      } else {
        r := None;
      }
    }

    method GetMaxId() returns (r: Option<Value>)
      ensures r.Some? <==> MaxIdKey in data
      ensures r.Some? ==> r.value == data[MaxIdKey].value
    {
      r := Get(MaxIdKey);
    }

    method CreateMaxId()
      modifies this
      ensures data == WithCounter(old(data))
    {
      var current := GetMaxId();
      if current.None? {
        data := data[MaxIdKey := Entry(IntVal(0), None)];
      }
    }

    /** Appends one message. The counter must exist and hold an integer: the
        `save_message` adds 1 to whatever GET returned, see SaveAsWritten. */
    method SaveMessage(msg: string)
      requires HasCounter(data)
      modifies this
      ensures data == Appended(old(data), msg, ttl)
    {
      var maxId := GetMaxId();
      var n := maxId.value.n;
      data := data[IdKey(n + 1) := Entry(StrVal(msg), Some(ttl))];
      data := data[MaxIdKey := Entry(IntVal(n + 1), None)];
    }
  }

  // ---------------------------------------------------------------------
  // What GET really hands back, and what `max_id + 1` does with it.
  // ---------------------------------------------------------------------

  /** The Python values involved in `max_id + 1`. */
  datatype PyValue = PyNone | PyInt(i: int) | PyStr(s: string)

  datatype PyError = TypeError

  function DigitChar(d: nat): char
    requires d < 10
  {
    (('0' as int) + d) as char
  }

  predicate IsDigit(c: char) {
    '0' <= c <= '9'
  }

  function NatDigits(n: nat): (s: string)
    ensures |s| > 0 && forall i :: 0 <= i < |s| ==> IsDigit(s[i])
    decreases n
  {
    if n < 10 then [DigitChar(n)] else NatDigits(n / 10) + [DigitChar(n % 10)]
  }

  /** The decimal text the store keeps for an integer. */
  function Decimal(n: int): string {
    if n < 0 then "-" + NatDigits(-n) else NatDigits(n)
  }

  function DigitsValue(s: string): nat
    requires forall i :: 0 <= i < |s| ==> IsDigit(s[i])
    decreases |s|
  {
    if |s| == 0 then 0
    else
      assert IsDigit(s[|s| - 1]);
      DigitsValue(s[..|s| - 1]) * 10 + (s[|s| - 1] as int - '0' as int)
  }

  /** `int(s)` on an optionally signed run of decimal digits; None stands for
      the ValueError raised on anything else. */
  function ParseInt(s: string): (r: Option<int>)
    ensures r.Some? ==> |s| > 0 && forall i :: 0 <= i < |s| ==> IsDigit(s[i]) || (i == 0 && s[i] == '-')
  {
    if |s| > 0 && s[0] == '-' then
      if |s| > 1 && forall i :: 1 <= i < |s| ==> IsDigit(s[i]) then Some(0 - DigitsValue(s[1..])) else None
    else if |s| > 0 && forall i :: 0 <= i < |s| ==> IsDigit(s[i]) then Some(DigitsValue(s))
    else None
  }

  lemma {:induction false} NatDigitsValue(n: nat)
    ensures DigitsValue(NatDigits(n)) == n
    decreases n
  {
    var s := NatDigits(n);
    if n >= 10 {
      NatDigitsValue(n / 10);
      assert s[..|s| - 1] == NatDigits(n / 10);
    }
  }

  lemma ParseDigits(s: string)
    requires |s| > 0 && forall i :: 0 <= i < |s| ==> IsDigit(s[i])
    ensures ParseInt(s) == Some(DigitsValue(s))
  {
    assert IsDigit(s[0]);
  }

  lemma ParseNegativeDigits(s: string)
    requires |s| > 0 && forall i :: 0 <= i < |s| ==> IsDigit(s[i])
    ensures ParseInt("-" + s) == Some(0 - DigitsValue(s))
  {
    var t := "-" + s;
    assert t[0] == '-' && t[1..] == s;
    forall i | 1 <= i < |t|
      ensures IsDigit(t[i])
    {
      assert t[i] == s[i - 1];
    }
  }

  /** Reading back the decimal text of an integer gives the integer. */
  lemma DecimalRoundTrip(n: int)
    ensures ParseInt(Decimal(n)) == Some(n)
  {
    if n < 0 {
      NatDigitsValue(-n);
      ParseNegativeDigits(NatDigits(-n));
    } else {
      NatDigitsValue(n);
      ParseDigits(NatDigits(n));
    }
  }

  /** The reply to GET: None for an absent key, otherwise the stored text (the
      store keeps every value as a string). */
  function Reply(m: Db, key: Key): (r: PyValue)
    ensures !r.PyInt?
    ensures r.PyNone? <==> key !in m
  {
    if key !in m then PyNone
    else match m[key].value
      case IntVal(n) => PyStr(Decimal(n))
      case StrVal(s) => PyStr(s)
  }

  /** `x + k` for an integer literal k: defined only for an integer x. */
  function PyAddInt(x: PyValue, k: int): (r: Result<int, PyError>)
    ensures r.Success? <==> x.PyInt?
    ensures x.PyInt? ==> r.value == x.i + k
  {
    match x
    case PyInt(i) => Success(i + k)
    case _ => Failure(TypeError)
  }

  /** `save_message` as written: it adds 1 to the raw GET reply. */
  function SaveAsWritten(m: Db, msg: string, ttl: nat): (r: Result<Db, PyError>)
    ensures r.Success? <==> Reply(m, MaxIdKey).PyInt?
    ensures r.Failure? ==> r.error == TypeError
  {
    match PyAddInt(Reply(m, MaxIdKey), 1)
    case Failure(e) => Failure(e)
    case Success(next) =>
      Success(m[IdKey(next) := Entry(StrVal(msg), Some(ttl))][MaxIdKey := Entry(IntVal(next), None)])
  }

  /** Whatever the store holds, whether or not the counter was ever created,
      `save_message` as written raises TypeError and writes nothing. */
  lemma SaveAsWrittenRaises(m: Db, msg: string, ttl: nat)
    ensures SaveAsWritten(m, msg, ttl) == Failure(TypeError)
  {
  }

  /** The evidently intended read, `int(GET "max_id")`. */
  function ReadCounter(m: Db): Option<int> {
    match Reply(m, MaxIdKey)
    case PyStr(s) => ParseInt(s)
    case _ => None
  }

  /** The intended read recovers exactly the integer counter that SaveMessage
      works from. */
  lemma ReadCounterRecovers(m: Db)
    requires HasCounter(m)
    ensures ReadCounter(m) == Some(Counter(m))
  {
    DecimalRoundTrip(Counter(m));
  }
}
