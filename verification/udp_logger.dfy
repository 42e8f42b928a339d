/** The UDP log sender: labels get integer keys, logged values wait in one
    queue per value type (newest value per key wins), and a flush packs the
    queues into packets handed to a sink.  The wire encoding is reduced to a
    size per entry and a packet capacity; the sink is the list of packets
    it has been handed. */
module UdpLogger {
  import opened Wrappers

  const MinKey: int := 16
  const FlushPeriodS: real := 0.1

  datatype Entry =
    | BooleanEntry(key: int, b: bool)
    | DoubleEntry(key: int, d: real)
    | IntEntry(key: int, i: int)
    | DoubleArrayEntry(key: int, a: seq<real>)
    | LongEntry(key: int, l: int)
    | StringEntry(key: int, s: string)

  type Packet = seq<Entry>

  /** What the protocol encoder decides: how many bytes an entry takes and
      how many fit in one packet. */
  datatype Wire = Wire(capacity: nat, size: Entry -> nat)

  /** IllegalState: an entry does not fit even an empty packet.
      NullIterator: the label dump dereferences an iterator never set. */
  datatype LoggerError = IllegalState | NullIterator

  datatype Logger = Logger(
    handles: seq<string>,
    booleans: map<int, bool>,
    doubles: map<int, real>,
    ints: map<int, int>,
    doubleArrays: map<int, seq<real>>,
    longs: map<int, int>,
    strings: map<int, string>,
    flushTime: real,
    sent: seq<Packet>)

  function New(): (r: Logger)
    ensures r.handles == [] && r.sent == [] && r.flushTime == 0.0
    ensures QueueCount(r) == 0
  {
    Logger([], map[], map[], map[], map[], map[], map[], 0.0, [])
  }

  // ---------------------------------------------------------------- keys

  /** getKey: the next key is 16 plus the number of labels so far, and the
      name is remembered under it. */
  function GetKey(l: Logger, name: string): (r: (Logger, int))
    ensures r.0 == l.(handles := l.handles + [name])
    ensures r.1 - MinKey == |l.handles| && r.0.handles[r.1 - MinKey] == name
  {
    (l.(handles := l.handles + [name]), |l.handles| + MinKey)
  }

  /** Keys handed out one after another are all different, even for the
      same name. */
  lemma KeysAreDistinct(l: Logger, a: string, b: string)
    ensures var (l1, k1) := GetKey(l, a);
            var (l2, k2) := GetKey(l1, b);
            k1 != k2 && l2.handles[k1 - MinKey] == a && l2.handles[k2 - MinKey] == b
  {
  }

  // ------------------------------------------------------------- queues

  /** The boolean logger of a name keeps the key it was created with. */
  function BooleanLogger(l: Logger, name: string): (r: (Logger, int))
    ensures r.1 == MinKey + |l.handles| && r.0.handles == l.handles + [name]
    ensures r.0.(handles := l.handles) == l
  {
    GetKey(l, name)
  }

  function LogBoolean(l: Logger, key: int, val: bool): (r: Logger)
    ensures key in r.booleans && r.booleans[key] == val
    ensures r.booleans.Keys == l.booleans.Keys + {key}
    ensures forall k :: k in l.booleans && k != key ==> r.booleans[k] == l.booleans[k]
    ensures r.(booleans := l.booleans) == l
  {
    l.(booleans := l.booleans[key := val])
  }

  /** The string logger takes its key when it is created. */
  function StringLogger(l: Logger, name: string): (r: (Logger, int))
    ensures r.1 == MinKey + |l.handles| && r.0.handles == l.handles + [name]
    ensures r.0.(handles := l.handles) == l
  {
    GetKey(l, name)
  }

  function LogString(l: Logger, key: int, val: string): (r: Logger)
    ensures key in r.strings && r.strings[key] == val
    ensures r.strings.Keys == l.strings.Keys + {key}
    ensures forall k :: k in l.strings && k != key ==> r.strings[k] == l.strings[k]
    ensures r.(strings := l.strings) == l
  {
    l.(strings := l.strings[key := val])
  }

  /** Within a flush period a later value for a key replaces the earlier
      one, and the other queued keys are untouched. */
  lemma NewestValueWins(l: Logger, key: int, a: bool, b: bool, s: string, t: string)
    ensures LogBoolean(LogBoolean(l, key, a), key, b) == LogBoolean(l, key, b)
    ensures LogString(LogString(l, key, s), key, t) == LogString(l, key, t)
  {
    assert l.booleans[key := a][key := b] == l.booleans[key := b];
    assert l.strings[key := s][key := t] == l.strings[key := t];
  }

  /** Logging to one key leaves the other queued keys alone and grows the
      queue by at most one entry. */
  lemma OtherKeysUntouched(l: Logger, key: int, other: int, b: bool)
    requires other != key
    ensures other in l.booleans ==> LogBoolean(l, key, b).booleans[other] == l.booleans[other]
    ensures |LogBoolean(l, key, b).booleans| <= |l.booleans| + 1
    ensures LogBoolean(l, key, b).(booleans := l.booleans) == l
  {
    var m := l.booleans[key := b];
    assert m.Keys == l.booleans.Keys + {key};
  }

  /** logDouble as written: every call takes a fresh key. */
  function LogDouble(l: Logger, name: string, val: real): (r: Logger)
    ensures r.handles == l.handles + [name]
    ensures r.doubles == l.doubles[MinKey + |l.handles| := val]
    ensures r.(handles := l.handles, doubles := l.doubles) == l
  {
    var (l1, key) := GetKey(l, name);
    l1.(doubles := l1.doubles[key := val])
  }

  function LogInt(l: Logger, name: string, val: int): (r: Logger)
    ensures r.handles == l.handles + [name]
    ensures r.ints == l.ints[MinKey + |l.handles| := val]
    ensures r.(handles := l.handles, ints := l.ints) == l
  {
    var (l1, key) := GetKey(l, name);
    l1.(ints := l1.ints[key := val])
  }

  function LogDoubleArray(l: Logger, name: string, val: seq<real>): (r: Logger)
    ensures r.handles == l.handles + [name]
    ensures r.doubleArrays == l.doubleArrays[MinKey + |l.handles| := val]
    ensures r.(handles := l.handles, doubleArrays := l.doubleArrays) == l
  {
    var (l1, key) := GetKey(l, name);
    l1.(doubleArrays := l1.doubleArrays[key := val])
  }

  /** Java's long is 64 bits; values are carried as integers. */
  function LogLong(l: Logger, name: string, val: int): (r: Logger)
    ensures r.handles == l.handles + [name]
    ensures r.longs == l.longs[MinKey + |l.handles| := val]
    ensures r.(handles := l.handles, longs := l.longs) == l
  {
    var (l1, key) := GetKey(l, name);
    l1.(longs := l1.longs[key := val])
  }

  /** As written, logging the same name twice in one period queues both
      values under two different keys and registers the name twice, so
      the newest value does not replace the older one. */
  lemma RepeatedLabelQueuesTwice(name: string)
    ensures var l := LogDouble(LogDouble(New(), name, 1.0), name, 2.0);
            && l.handles == [name, name]
            && l.doubles == map[MinKey := 1.0, MinKey + 1 := 2.0]
  {
  }

  /** The key of a name: the one it already has, or a new one. */
  function KeyFor(l: Logger, name: string): (r: (Logger, int))
    ensures r.1 >= MinKey && r.1 - MinKey < |r.0.handles| && r.0.handles[r.1 - MinKey] == name
    ensures name in l.handles ==> r.0 == l
    ensures name !in l.handles ==> r == GetKey(l, name)
  {
    if name in l.handles then (l, IndexOf(l.handles, name) + MinKey)
    else GetKey(l, name)
  }

  /** The first position of `x` in `s`. */
  function IndexOf(s: seq<string>, x: string): (i: nat)
    requires x in s
    ensures i < |s| && s[i] == x
    ensures forall j :: 0 <= j < i ==> s[j] != x
  {
    if s[0] == x then 0 else 1 + IndexOf(s[1..], x)
  }

  /** A name keeps its key once it has one. */
  lemma KeyForIsStable(l: Logger, name: string)
    ensures var (l1, k1) := KeyFor(l, name);
            KeyFor(l1, name) == (l1, k1)
  {
    var (l1, k1) := KeyFor(l, name);
    assert name in l1.handles;
    var i := IndexOf(l1.handles, name);
    if name in l.handles {
      assert i == k1 - MinKey;
    } else {
      assert l1.handles == l.handles + [name];
      assert l1.handles[|l.handles|] == name;
    }
  }

  function LogDoubleCorrected(l: Logger, name: string, val: real): (r: Logger)
    // a known name keeps its key and registers nothing
    ensures name in l.handles ==>
              r.handles == l.handles && r.doubles == l.doubles[MinKey + IndexOf(l.handles, name) := val]
    // a new name gets the next key
    ensures name !in l.handles ==>
              r.handles == l.handles + [name] && r.doubles == l.doubles[MinKey + |l.handles| := val]
    ensures r.(handles := l.handles, doubles := l.doubles) == l
  {
    var (l1, key) := KeyFor(l, name);
    l1.(doubles := l1.doubles[key := val])
  }

  function LogIntCorrected(l: Logger, name: string, val: int): (r: Logger)
    // a known name keeps its key and registers nothing
    ensures name in l.handles ==>
              r.handles == l.handles && r.ints == l.ints[MinKey + IndexOf(l.handles, name) := val]
    // a new name gets the next key
    ensures name !in l.handles ==>
              r.handles == l.handles + [name] && r.ints == l.ints[MinKey + |l.handles| := val]
    ensures r.(handles := l.handles, ints := l.ints) == l
  {
    var (l1, key) := KeyFor(l, name);
    l1.(ints := l1.ints[key := val])
  }

  function LogDoubleArrayCorrected(l: Logger, name: string, val: seq<real>): (r: Logger)
    // a known name keeps its key and registers nothing
    ensures name in l.handles ==>
              r.handles == l.handles && r.doubleArrays == l.doubleArrays[MinKey + IndexOf(l.handles, name) := val]
    // a new name gets the next key
    ensures name !in l.handles ==>
              r.handles == l.handles + [name] && r.doubleArrays == l.doubleArrays[MinKey + |l.handles| := val]
    ensures r.(handles := l.handles, doubleArrays := l.doubleArrays) == l
  {
    var (l1, key) := KeyFor(l, name);
    l1.(doubleArrays := l1.doubleArrays[key := val])
  }

  function LogLongCorrected(l: Logger, name: string, val: int): (r: Logger)
    // a known name keeps its key and registers nothing
    ensures name in l.handles ==>
              r.handles == l.handles && r.longs == l.longs[MinKey + IndexOf(l.handles, name) := val]
    // a new name gets the next key
    ensures name !in l.handles ==>
              r.handles == l.handles + [name] && r.longs == l.longs[MinKey + |l.handles| := val]
    ensures r.(handles := l.handles, longs := l.longs) == l
  {
    var (l1, key) := KeyFor(l, name);
    l1.(longs := l1.longs[key := val])
  }

  /** With a stable key per name, a second value for a name within the
      period replaces the first, and the name is registered once. */
  lemma CorrectedNewestValueWins(l: Logger, name: string, a: real, b: real)
    ensures LogDoubleCorrected(LogDoubleCorrected(l, name, a), name, b) == LogDoubleCorrected(l, name, b)
    ensures |LogDoubleCorrected(LogDoubleCorrected(l, name, a), name, b).handles| <= |l.handles| + 1
  {
    KeyForIsStable(l, name);
  }

  // ------------------------------------------------------------ packets

  /** The entries carried by a list of packets, in sending order. */
  function Flat(ps: seq<Packet>): (r: seq<Entry>)
    decreases |ps|
  {
    if |ps| == 0 then [] else Flat(ps[..|ps| - 1]) + ps[|ps| - 1]
  }

  lemma FlatAppend(ps: seq<Packet>, p: Packet)
    ensures Flat(ps + [p]) == Flat(ps) + p
  {
    assert (ps + [p])[..|ps|] == ps;
  }

  /** Everything handed over so far plus the packet being filled. */
  function Content(sent: seq<Packet>, p: Packet): seq<Entry> {
    Flat(sent) + p
  }

  function Used(w: Wire, p: Packet): nat
    decreases |p|
  {
    if |p| == 0 then 0 else Used(w, p[..|p| - 1]) + w.size(p[|p| - 1])
  }

  predicate Within(w: Wire, p: Packet) {
    Used(w, p) <= w.capacity
  }

  predicate AllWithin(w: Wire, ps: seq<Packet>) {
    forall i :: 0 <= i < |ps| ==> Within(w, ps[i])
  }

  /** The protocol's put: succeeds when the entry still fits. */
  predicate Fits(w: Wire, p: Packet, e: Entry) {
    Used(w, p) + w.size(e) <= w.capacity
  }

  lemma UsedAppend(w: Wire, p: Packet, e: Entry)
    ensures Used(w, p + [e]) == Used(w, p) + w.size(e)
  {
    assert (p + [e])[..|p|] == p;
  }

  datatype Filling = Filling(packet: Packet, sent: seq<Packet>)

  /** putAndMaybeSend: put the entry; when it does not fit, hand the
      current packet to the sink, start a new one and put it there; when it
      does not fit an empty packet either, fail. */
  function PutAndMaybeSend(w: Wire, f: Filling, e: Entry): (r: Result<Filling, LoggerError>)
    requires Within(w, f.packet) && AllWithin(w, f.sent)
    ensures r.Failure? <==> w.size(e) > w.capacity
    ensures r.Success? ==>
              && Content(r.value.sent, r.value.packet) == Content(f.sent, f.packet) + [e]
              && Within(w, r.value.packet) && AllWithin(w, r.value.sent)
              && f.sent <= r.value.sent
  {
    UsedAppend(w, f.packet, e);
    UsedAppend(w, [], e);
    FlatAppend(f.sent, f.packet);
    if Fits(w, f.packet, e) then Success(Filling(f.packet + [e], f.sent))
    else if Fits(w, [], e) then Success(Filling([e], f.sent + [f.packet]))
    else Failure(IllegalState)
  }

  // -------------------------------------------------------------- flush

  /** The entries of queue `q` in the order `order` visits its keys. */
  function Listed<V>(order: seq<int>, q: map<int, V>, mk: (int, V) -> Entry): (r: seq<Entry>)
    requires forall j :: 0 <= j < |order| ==> order[j] in q
    ensures |r| == |order|
    ensures forall j :: 0 <= j < |order| ==> r[j] == mk(order[j], q[order[j]])
    decreases |order|
  {
    if |order| == 0 then []
    else Listed(order[..|order| - 1], q, mk) + [mk(order[|order| - 1], q[order[|order| - 1]])]
  }

  /** The queued entries of one queue, as a set. */
  function Queued<V>(q: map<int, V>, mk: (int, V) -> Entry): set<Entry> {
    set k | k in q :: mk(k, q[k])
  }

  predicate Oversized<V>(w: Wire, q: map<int, V>, mk: (int, V) -> Entry) {
    exists k :: k in q && w.size(mk(k, q[k])) > w.capacity
  }

  /** `order` visits each key of `q` exactly once. */
  predicate Visits<V>(order: seq<int>, q: map<int, V>) {
    && |order| == |q|
    && (forall j :: 0 <= j < |order| ==> order[j] in q)
    && (forall k :: k in q ==> k in order)
  }

  /** Some element of a non-empty set. */
  method Choose(s: set<int>) returns (k: int)
    requires s != {}
    ensures k in s
  {
    var empty: set<int> := {};
    assert (forall x :: x in s <==> x in empty) ==> s == empty;
    k :| k in s;
  }

  /** The order in which a queue's iterator visits its keys; Java's HashMap
      leaves it unspecified, so any order of the keys will do. */
  method KeyOrder<V>(q: map<int, V>) returns (order: seq<int>)
    ensures Visits(order, q)
  {
    var keys := q.Keys;
    order := [];
    while keys != {}
      invariant keys <= q.Keys
      invariant |order| + |keys| == |q|
      invariant forall j :: 0 <= j < |order| ==> order[j] in q && order[j] !in keys
      invariant forall k :: k in q ==> k in keys || k in order
      decreases |keys|
    {
      var k := Choose(keys);
      order := order + [k];
      keys := keys - {k};
    }
  }

  predicate AnyTooBig(w: Wire, es: seq<Entry>) {
    exists i :: 0 <= i < |es| && w.size(es[i]) > w.capacity
  }

  /** The flushX loops, one after another: each entry in turn through
      putAndMaybeSend, stopping at the first failure.  Every packet it
      produces fits. */
  function Pack(w: Wire, f: Filling, es: seq<Entry>): (r: Result<Filling, LoggerError>)
    requires Within(w, f.packet) && AllWithin(w, f.sent)
    ensures r.Success? ==> Within(w, r.value.packet) && AllWithin(w, r.value.sent)
    decreases |es|
  {
    if |es| == 0 then Success(f)
    else
      var step := PutAndMaybeSend(w, f, es[0]);
      if step.Failure? then Failure(IllegalState)
      else Pack(w, step.value, es[1..])
  }

  /** Packing fails exactly when some entry cannot fit even an empty
      packet; otherwise the packets carry the entries in order, after what
      was there already. */
  lemma {:induction false} PackCarriesEntries(w: Wire, f: Filling, es: seq<Entry>)
    requires Within(w, f.packet) && AllWithin(w, f.sent)
    ensures Pack(w, f, es).Failure? <==> AnyTooBig(w, es)
    ensures Pack(w, f, es).Success? ==>
              && Content(Pack(w, f, es).value.sent, Pack(w, f, es).value.packet) == Content(f.sent, f.packet) + es
              && f.sent <= Pack(w, f, es).value.sent
    decreases |es|
  {
    if |es| > 0 {
      var step := PutAndMaybeSend(w, f, es[0]);
      TooBigConcat(w, [es[0]], es[1..]);
      assert es == [es[0]] + es[1..];
      assert AnyTooBig(w, [es[0]]) <==> w.size(es[0]) > w.capacity;
      if step.Success? {
        PackCarriesEntries(w, step.value, es[1..]);
      }
    }
  }

  /** A queue listed in a visiting order has an entry too big for a packet
      exactly when the queue does. */
  lemma ListedTooBig<V>(w: Wire, order: seq<int>, q: map<int, V>, mk: (int, V) -> Entry)
    requires Visits(order, q)
    ensures AnyTooBig(w, Listed(order, q, mk)) <==> Oversized(w, q, mk)
  {
    var listed := Listed(order, q, mk);
    if Oversized(w, q, mk) {
      var k :| k in q && w.size(mk(k, q[k])) > w.capacity;
      var j :| 0 <= j < |order| && order[j] == k;
      assert w.size(listed[j]) > w.capacity;
    }
    if AnyTooBig(w, listed) {
      var i :| 0 <= i < |listed| && w.size(listed[i]) > w.capacity;
      var k := order[i];
      assert k in q && w.size(mk(k, q[k])) > w.capacity;
    }
  }

  lemma TooBigConcat(w: Wire, a: seq<Entry>, b: seq<Entry>)
    ensures AnyTooBig(w, a + b) <==> AnyTooBig(w, a) || AnyTooBig(w, b)
  {
    if AnyTooBig(w, a + b) {
      var i :| 0 <= i < |a + b| && w.size((a + b)[i]) > w.capacity;
      if i >= |a| {
        assert b[i - |a|] == (a + b)[i];
      }
    }
    if AnyTooBig(w, a) {
      var i :| 0 <= i < |a| && w.size(a[i]) > w.capacity;
      assert (a + b)[i] == a[i];
    }
    if AnyTooBig(w, b) {
      var i :| 0 <= i < |b| && w.size(b[i]) > w.capacity;
      assert (a + b)[i + |a|] == b[i];
    }
  }

  /** The entries of a visiting order are the queue's entries. */
  lemma ListedIsQueued<V>(order: seq<int>, q: map<int, V>, mk: (int, V) -> Entry)
    requires Visits(order, q)
    ensures (set e | e in Listed(order, q, mk)) == Queued(q, mk)
  {
    var listed := Listed(order, q, mk);
    forall e | e in listed
      ensures e in Queued(q, mk)
    {
      var j :| 0 <= j < |listed| && listed[j] == e;
      var k := order[j];
      assert k in q && e == mk(k, q[k]);
    }
    forall e | e in Queued(q, mk)
      ensures e in listed
    {
      var k :| k in q && e == mk(k, q[k]);
      var j :| 0 <= j < |order| && order[j] == k;
      assert listed[j] == e;
    }
  }

  /** The entry constructors, as functions a queue can be drained with. */
  function AsBoolean(k: int, v: bool): Entry { BooleanEntry(k, v) }
  function AsDouble(k: int, v: real): Entry { DoubleEntry(k, v) }
  function AsInt(k: int, v: int): Entry { IntEntry(k, v) }
  function AsDoubleArray(k: int, v: seq<real>): Entry { DoubleArrayEntry(k, v) }
  function AsLong(k: int, v: int): Entry { LongEntry(k, v) }
  function AsString(k: int, v: string): Entry { StringEntry(k, v) }

  function AllQueued(l: Logger): set<Entry> {
    Queued(l.booleans, AsBoolean)
    + Queued(l.doubles, AsDouble)
    + Queued(l.ints, AsInt)
    + Queued(l.doubleArrays, AsDoubleArray)
    + Queued(l.longs, AsLong)
    + Queued(l.strings, AsString)
  }

  function QueueCount(l: Logger): nat {
    |l.booleans| + |l.doubles| + |l.ints| + |l.doubleArrays| + |l.longs| + |l.strings|
  }

  predicate AnyOversized(w: Wire, l: Logger) {
    || Oversized(w, l.booleans, AsBoolean)
    || Oversized(w, l.doubles, AsDouble)
    || Oversized(w, l.ints, AsInt)
    || Oversized(w, l.doubleArrays, AsDoubleArray)
    || Oversized(w, l.longs, AsLong)
    || Oversized(w, l.strings, AsString)
  }

  /** The queues emptied, nothing else changed but the packets handed on. */
  predicate Drained(l: Logger, r: Logger) {
    r == l.(booleans := map[], doubles := map[], ints := map[], doubleArrays := map[],
            longs := map[], strings := map[], sent := r.sent)
  }

  /** flush: start an empty packet, drain the six queues in turn, and hand
      the last packet on even when it is empty.  At least one packet goes
      out, every packet fits, and the packets carry exactly the queued
      entries, each once.  It fails when some queued entry does not fit an
      empty packet. */
  method Flush(w: Wire, l: Logger) returns (r: Result<Logger, LoggerError>)
    ensures r.Failure? <==> AnyOversized(w, l)
    ensures r.Success? ==>
              && Drained(l, r.value)
              && |l.sent| < |r.value.sent|
              && l.sent == r.value.sent[..|l.sent|]
    ensures r.Success? ==>
              var handed := r.value.sent[|l.sent|..];
              && AllWithin(w, handed)
              && (set e | e in Flat(handed)) == AllQueued(l)
              && |Flat(handed)| == QueueCount(l)
  {
    var o1 := KeyOrder(l.booleans);
    var o2 := KeyOrder(l.doubles);
    var o3 := KeyOrder(l.ints);
    var o4 := KeyOrder(l.doubleArrays);
    var o5 := KeyOrder(l.longs);
    var o6 := KeyOrder(l.strings);
    var entries := Listed(o1, l.booleans, AsBoolean) + Listed(o2, l.doubles, AsDouble)
                   + Listed(o3, l.ints, AsInt) + Listed(o4, l.doubleArrays, AsDoubleArray)
                   + Listed(o5, l.longs, AsLong) + Listed(o6, l.strings, AsString);
    HandedMatchesQueues(l, o1, o2, o3, o4, o5, o6, entries);
    OversizedMatchesQueues(w, l, o1, o2, o3, o4, o5, o6, entries);
    var packed := Pack(w, Filling([], []), entries);
    PackCarriesEntries(w, Filling([], []), entries);
    if packed.Failure? {
      return Failure(IllegalState);
    }
    assert Content([], []) == [];
    Handover(w, l, entries, packed.value);
    r := Success(Handed(l, packed.value));
  }

  /** The logger after a flush whose packing ended in `last`: queues empty,
      the packets sent during packing and then the last packet handed on. */
  function Handed(l: Logger, last: Filling): Logger {
    l.(booleans := map[], doubles := map[], ints := map[], doubleArrays := map[],
       longs := map[], strings := map[], sent := l.sent + (last.sent + [last.packet]))
  }

  lemma Handover(w: Wire, l: Logger, entries: seq<Entry>, last: Filling)
    requires Content(last.sent, last.packet) == entries
    requires Within(w, last.packet) && AllWithin(w, last.sent)
    requires (set e | e in entries) == AllQueued(l) && |entries| == QueueCount(l)
    ensures Drained(l, Handed(l, last))
    ensures |l.sent| < |Handed(l, last).sent| && l.sent == Handed(l, last).sent[..|l.sent|]
    ensures var handed := Handed(l, last).sent[|l.sent|..];
            && AllWithin(w, handed)
            && (set e | e in Flat(handed)) == AllQueued(l)
            && |Flat(handed)| == QueueCount(l)
  {
    var handed := last.sent + [last.packet];
    FlatAppend(last.sent, last.packet);
    var sent := l.sent + handed;
    assert sent[|l.sent|..] == handed;
    assert sent[..|l.sent|] == l.sent;
  }

  lemma OversizedMatchesQueues(w: Wire, l: Logger, o1: seq<int>, o2: seq<int>, o3: seq<int>,
                               o4: seq<int>, o5: seq<int>, o6: seq<int>, flat: seq<Entry>)
    requires Visits(o1, l.booleans) && Visits(o2, l.doubles) && Visits(o3, l.ints)
    requires Visits(o4, l.doubleArrays) && Visits(o5, l.longs) && Visits(o6, l.strings)
    requires flat == Listed(o1, l.booleans, AsBoolean) + Listed(o2, l.doubles, AsDouble)
                     + Listed(o3, l.ints, AsInt) + Listed(o4, l.doubleArrays, AsDoubleArray)
                     + Listed(o5, l.longs, AsLong) + Listed(o6, l.strings, AsString)
    ensures AnyTooBig(w, flat) <==> AnyOversized(w, l)
  {
    var l1 := Listed(o1, l.booleans, AsBoolean);
    var l2 := Listed(o2, l.doubles, AsDouble);
    var l3 := Listed(o3, l.ints, AsInt);
    var l4 := Listed(o4, l.doubleArrays, AsDoubleArray);
    var l5 := Listed(o5, l.longs, AsLong);
    var l6 := Listed(o6, l.strings, AsString);
    ListedTooBig(w, o1, l.booleans, AsBoolean);
    ListedTooBig(w, o2, l.doubles, AsDouble);
    ListedTooBig(w, o3, l.ints, AsInt);
    ListedTooBig(w, o4, l.doubleArrays, AsDoubleArray);
    ListedTooBig(w, o5, l.longs, AsLong);
    ListedTooBig(w, o6, l.strings, AsString);
    TooBigConcat(w, l1, l2);
    TooBigConcat(w, l1 + l2, l3);
    TooBigConcat(w, l1 + l2 + l3, l4);
    TooBigConcat(w, l1 + l2 + l3 + l4, l5);
    TooBigConcat(w, l1 + l2 + l3 + l4 + l5, l6);
  }

  /** Entries listed queue after queue in visiting orders are exactly the
      queued entries, each once. */
  lemma HandedMatchesQueues(l: Logger, o1: seq<int>, o2: seq<int>, o3: seq<int>,
                            o4: seq<int>, o5: seq<int>, o6: seq<int>, flat: seq<Entry>)
    requires Visits(o1, l.booleans) && Visits(o2, l.doubles) && Visits(o3, l.ints)
    requires Visits(o4, l.doubleArrays) && Visits(o5, l.longs) && Visits(o6, l.strings)
    requires flat == Listed(o1, l.booleans, AsBoolean) + Listed(o2, l.doubles, AsDouble)
                     + Listed(o3, l.ints, AsInt) + Listed(o4, l.doubleArrays, AsDoubleArray)
                     + Listed(o5, l.longs, AsLong) + Listed(o6, l.strings, AsString)
    ensures (set e | e in flat) == AllQueued(l)
    ensures |flat| == QueueCount(l)
  {
    var l1 := Listed(o1, l.booleans, AsBoolean);
    var l2 := Listed(o2, l.doubles, AsDouble);
    var l3 := Listed(o3, l.ints, AsInt);
    var l4 := Listed(o4, l.doubleArrays, AsDoubleArray);
    var l5 := Listed(o5, l.longs, AsLong);
    var l6 := Listed(o6, l.strings, AsString);
    ListedIsQueued(o1, l.booleans, AsBoolean);
    ListedIsQueued(o2, l.doubles, AsDouble);
    ListedIsQueued(o3, l.ints, AsInt);
    ListedIsQueued(o4, l.doubleArrays, AsDoubleArray);
    ListedIsQueued(o5, l.longs, AsLong);
    ListedIsQueued(o6, l.strings, AsString);
    ElementsOfConcat(l1, l2);
    ElementsOfConcat(l1 + l2, l3);
    ElementsOfConcat(l1 + l2 + l3, l4);
    ElementsOfConcat(l1 + l2 + l3 + l4, l5);
    ElementsOfConcat(l1 + l2 + l3 + l4 + l5, l6);
  }

  lemma ElementsOfConcat(a: seq<Entry>, b: seq<Entry>)
    ensures (set e | e in a + b) == (set e | e in a) + (set e | e in b)
  {
  }

  /** periodic: flush only when more than the flush period has passed
      since the last flush, then remember the time.  `now` is the clock
      reading. */
  method Periodic(w: Wire, l: Logger, now: real) returns (r: Result<Logger, LoggerError>)
    ensures !(l.flushTime + FlushPeriodS < now) ==> r == Success(l)
    ensures l.flushTime + FlushPeriodS < now ==>
              && (r.Failure? <==> AnyOversized(w, l))
              && (r.Success? ==> r.value.flushTime == now && QueueCount(r.value) == 0
                                 && |l.sent| < |r.value.sent|
                                 && r.value.handles == l.handles)
  {
    if l.flushTime + FlushPeriodS < now {
      var flushed := Flush(w, l);
      if flushed.Failure? {
        return Failure(IllegalState);
      }
      r := Success(flushed.value.(flushTime := now));
    } else {
      r := Success(l);
    }
  }

  /** periodic as the class is written: a due tick flushes and then dumps
      labels through an iterator that is never assigned, so the call
      throws before the flush time is recorded.  `left` is the state the
      call leaves behind: the queues are drained but the flush time is the
      old one, so the tick is still due and every later tick flushes and
      throws again.  A failed flush leaves its partial state unmodelled. */
  method PeriodicAsWritten(w: Wire, l: Logger, now: real) returns (r: Result<Logger, LoggerError>, left: Logger)
    ensures !(l.flushTime + FlushPeriodS < now) ==> r == Success(l) && left == l
    ensures l.flushTime + FlushPeriodS < now ==>
              && r.Failure?
              && left.flushTime == l.flushTime
              && left.flushTime + FlushPeriodS < now
    ensures l.flushTime + FlushPeriodS < now && !AnyOversized(w, l) ==>
              && r == Failure(NullIterator)
              && QueueCount(left) == 0
              && |l.sent| < |left.sent|
  {
    left := l;
    if l.flushTime + FlushPeriodS < now {
      var flushed := Flush(w, l);
      if flushed.Failure? {
        return Failure(IllegalState), l;
      }
      left := flushed.value;
      r := Failure(NullIterator);
    } else {
      r := Success(l);
    }
  }
}
