/**
 * The writers of the Kafka ConfigMaps (pkg/manifests/kafkabroker.go): bootstrap servers, number
 * of partitions, replication factor and topic options. An assignment into nil data panics.
 */
module KafkaConfig {
  import opened Prelude
  import opened Resources
  import opened Manifests
  import SemVer

  const BROKER_CONFIG := "kafka-broker-config"
  const CHANNEL_CONFIG := "kafka-channel-config"
  const BOOTSTRAP := "bootstrap.servers"
  const PARTITIONS := "default.topic.partitions"
  const REPLICATION := "default.topic.replication.factor"
  const PREFIX := "default.topic.config."

  function Join(parts: seq<string>): string {
    if parts == [] then "" else if |parts| == 1 then parts[0] else parts[0] + "," + Join(parts[1..])
  }

  function Digits(n: nat): string {
    (if n < 10 then "" else Digits(n / 10)) + ["0123456789"[n % 10]]
  }

  function Decimal(n: int): string {
    if n < 0 then "-" + Digits(-n) else Digits(n)
  }

  // ----- Prefixing is injective and collides with nothing -----

  function Prefixed(options: map<string, string>): map<string, string> {
    map q | q in (set k | k in options :: PREFIX + k) :: options[q[|PREFIX|..]]
  }

  lemma PrefixInjective(a: string, b: string)
    ensures PREFIX + a == PREFIX + b <==> a == b
  {
    assert (PREFIX + a)[|PREFIX|..] == a && (PREFIX + b)[|PREFIX|..] == b;
  }

  lemma PrefixNoCollision(k: string)
    ensures PREFIX + k !in {BOOTSTRAP, PARTITIONS, REPLICATION}
  {
    var q := PREFIX + k;
    assert q[0] == 'd' && BOOTSTRAP[0] == 'b';
    assert q[14] == 'c' && PARTITIONS[14] == 'p' && REPLICATION[14] == 'r';
  }

  /** Every option survives the prefixing under its own key, and nothing else is added. */
  lemma PrefixedOptions(options: map<string, string>)
    ensures forall k :: k in options ==> PREFIX + k in Prefixed(options) && Prefixed(options)[PREFIX + k] == options[k]
    ensures forall q :: q in Prefixed(options) ==> exists k :: k in options && q == PREFIX + k
    ensures |Prefixed(options)| == |options|
  {
    forall k | k in options ensures PREFIX + k in Prefixed(options) && Prefixed(options)[PREFIX + k] == options[k] {
      assert (PREFIX + k)[|PREFIX|..] == k;
    }
    PrefixedSize(options);
  }

  lemma {:induction false} PrefixedSize(options: map<string, string>)
    ensures |Prefixed(options)| == |options|
    decreases |options|
  {
    if options.Keys == {} {
      assert Prefixed(options).Keys == {};
    } else {
      var k :| k in options;
      var rest := options - {k};
      PrefixedSize(rest);
      assert Prefixed(options).Keys == Prefixed(rest).Keys + {PREFIX + k};
      forall b | b in rest ensures PREFIX + b != PREFIX + k { PrefixInjective(b, k); }
      assert |Prefixed(options).Keys| == |Prefixed(rest).Keys| + 1;
      assert rest.Keys == options.Keys - {k};
    }
  }

  // ----- The four writers -----

  datatype Writer =
    | BootstrapServers(servers: seq<string>)
    | NumberOfPartitions(n: int)
    | ReplicationFactor(n: int)
    | KafkaTopicOption(options: map<string, string>)

  function Entries(w: Writer): map<string, string> {
    match w
    case BootstrapServers(servers) => map[BOOTSTRAP := Join(servers)]
    case NumberOfPartitions(n) => map[PARTITIONS := Decimal(n)]
    case ReplicationFactor(n) => map[REPLICATION := Decimal(n)]
    case KafkaTopicOption(options) => Prefixed(options)
  }

  predicate Concerns(w: Writer, ns: string, namespace: string, name: string) {
    namespace == ns && (name == BROKER_CONFIG || (w.BootstrapServers? && name == CHANNEL_CONFIG))
  }

  /** One writer on the data of a ConfigMap. */
  function Edit(w: Writer, ns: string, namespace: string, name: string, d: Data): Result<Data, Error> {
    if !Concerns(w, ns, namespace, name) || Entries(w) == map[] then Ok(d)
    else if d.None? then Err(ConfigMapFailed)
    else Ok(Some(d.value + Entries(w)))
  }

  lemma EntriesEmpty(w: Writer)
    ensures Entries(w) == map[] ==> w.KafkaTopicOption?
  {
    assert w.BootstrapServers? ==> BOOTSTRAP in Entries(w);
    assert w.NumberOfPartitions? ==> PARTITIONS in Entries(w);
    assert w.ReplicationFactor? ==> REPLICATION in Entries(w);
  }

  // ----- The loops, in whatever order Go ranges over a map -----

  /** The loop of KafkaTopicOption. */
  method PrefixKeys(options: map<string, string>) returns (r: map<string, string>)
    ensures r == Prefixed(options)
  {
    r := map[];
    var todo := options.Keys;
    ghost var done: map<string, string> := map[];
    assert Prefixed(done) == map[];
    while todo != {}
      invariant r == Prefixed(done)
      invariant todo <= options.Keys && done.Keys == options.Keys - todo
      invariant forall k :: k in done ==> done[k] == options[k]
    {
      var k :| k in todo;
      AddPrefixed(done, k, options[k]);
      r := r[PREFIX + k := options[k]];
      done, todo := done[k := options[k]], todo - {k};
    }
    assert done == options;
  }

  lemma AddPrefixed(done: map<string, string>, k: string, v: string)
    ensures Prefixed(done[k := v]) == Prefixed(done)[PREFIX + k := v]
  {
    var more := done[k := v];
    assert (PREFIX + k)[|PREFIX|..] == k;
    assert forall b :: b in done ==> (PREFIX + b)[|PREFIX|..] == b;
  }

  /** A ConfigMap whose data is changed in place. */
  class ConfigMapObject {
    var data: Data

    constructor (d: Data)
      ensures data == d
    {
      data := d;
    }

    /** `ok` is false for the panic on nil data. */
    method Set(key: string, value: string) returns (ok: bool)
      modifies this
      ensures ok == old(data).Some?
      ensures data == if ok then Some(old(data).value + map[key := value]) else None
    {
      if data.None? {
        return false;
      }
      assert data.value[key := value] == data.value + map[key := value];
      data := Some(data.value[key := value]);
      ok := true;
    }

    /** ConfigMapMultipleValues: ranging over no values does not touch nil data. */
    method SetAll(keyValues: map<string, string>, merge: bool) returns (ok: bool)
      modifies this
      ensures ok == (!merge || old(data).Some? || keyValues == map[])
      ensures ok ==> data == if !merge then Some(keyValues)
                             else if old(data).None? then None else Some(old(data).value + keyValues)
    {
      if !merge {
        data := Some(keyValues);
        return true;
      }
      var todo := keyValues.Keys;
      while todo != {}
        invariant todo <= keyValues.Keys
        invariant data.Some? == old(data).Some?
        invariant data.Some? ==> data.value == old(data).value + (keyValues - todo)
        invariant data.None? ==> todo == keyValues.Keys
      {
        var k :| k in todo;
        var done := Set(k, keyValues[k]);
        if !done {
          return false;
        }
        assert keyValues - (todo - {k}) == (keyValues - todo)[k := keyValues[k]];
        todo := todo - {k};
      }
      assert keyValues - {} == keyValues && (keyValues.Keys == {} ==> keyValues == map[]);
      ok := true;
    }

    /** Any of the four writers. */
    method Apply(w: Writer, ns: string, namespace: string, name: string) returns (ok: bool)
      modifies this
      ensures Edit(w, ns, namespace, name, old(data)) == if ok then Ok(data) else Err(ConfigMapFailed)
    {
      if !Concerns(w, ns, namespace, name) {
        return true;
      }
      EntriesEmpty(w);
      match w {
        case BootstrapServers(servers) => ok := Set(BOOTSTRAP, Join(servers));
        case NumberOfPartitions(n) => ok := Set(PARTITIONS, Decimal(n));
        case ReplicationFactor(n) => ok := Set(REPLICATION, Decimal(n));
        case KafkaTopicOption(options) =>
          var keyValues := PrefixKeys(options);
          ok := SetAll(keyValues, true);
          if old(data).Some? { OverrideEmpty(old(data).value); }
      }
    }
  }

  // ----- All four together -----

  function TransformerOf(w: Writer, ns: string): Transformer {
    EditConfigMap((namespace, name, d) => Edit(w, ns, namespace, name, d))
  }

  function TransformersOf(ws: seq<Writer>, ns: string): seq<Transformer> {
    if ws == [] then [] else TransformersOf(ws[..|ws| - 1], ns) + [TransformerOf(ws[|ws| - 1], ns)]
  }

  /** The settings of the EventMesh. */
  datatype Settings = Settings(servers: seq<string>, partitions: int, replication: int, options: map<string, string>)

  /** The writers in the order in which the parser registers them. */
  function Registered(s: Settings): seq<Writer> {
    [BootstrapServers(s.servers), NumberOfPartitions(s.partitions),
     ReplicationFactor(s.replication), KafkaTopicOption(s.options)]
  }

  /** All entries together, without any order between the writers. */
  function AllEntries(s: Settings): map<string, string> {
    Prefixed(s.options) +
    map[BOOTSTRAP := Join(s.servers), PARTITIONS := Decimal(s.partitions), REPLICATION := Decimal(s.replication)]
  }

  /** No writer overwrites another: each of them finds its own entries in the union. */
  lemma WritersAgree(s: Settings, w: Writer, k: string)
    requires w in Registered(s) && k in Entries(w)
    ensures k in AllEntries(s) && AllEntries(s)[k] == Entries(w)[k]
  {
    if w.KafkaTopicOption? {
      PrefixedOptions(s.options);
      var o :| o in s.options && k == PREFIX + o;
      PrefixNoCollision(o);
    }
  }

  lemma EntriesCovered(s: Settings, k: string)
    requires k in AllEntries(s)
    ensures exists w :: w in Registered(s) && k in Entries(w)
  {
    var ws := Registered(s);
    if k == BOOTSTRAP {
      assert ws[0] in ws && k in Entries(ws[0]);
    } else if k == PARTITIONS {
      assert ws[1] in ws && k in Entries(ws[1]);
    } else if k == REPLICATION {
      assert ws[2] in ws && k in Entries(ws[2]);
    } else {
      assert ws[3] in ws && k in Entries(ws[3]);
    }
  }

  ghost predicate Written(ws: seq<Writer>, k: string) {
    exists w :: w in ws && k in Entries(w)
  }

  /** The writers on a broker ConfigMap, in any order and with any repetition. */
  function FoldBroker(ws: seq<Writer>, d: map<string, string>): map<string, string> {
    if ws == [] then d else FoldBroker(ws[..|ws| - 1], d) + Entries(ws[|ws| - 1])
  }

  lemma {:induction false} FoldValue(s: Settings, ws: seq<Writer>, d: map<string, string>, k: string)
    requires forall w :: w in ws ==> w in Registered(s)
    ensures if Written(ws, k)
            then k in AllEntries(s) && k in FoldBroker(ws, d) && FoldBroker(ws, d)[k] == AllEntries(s)[k]
            else (k in FoldBroker(ws, d) <==> k in d) && (k in d ==> FoldBroker(ws, d)[k] == d[k])
  {
    if ws != [] {
      var init, last := ws[..|ws| - 1], ws[|ws| - 1];
      assert ws == init + [last] && last in ws;
      FoldValue(s, init, d, k);
      if k in Entries(last) {
        WritersAgree(s, last, k);
      } else {
        assert Written(ws, k) <==> Written(init, k);
      }
    }
  }

  lemma WrittenExactly(s: Settings, ws: seq<Writer>, k: string)
    requires forall w :: w in ws <==> w in Registered(s)
    ensures Written(ws, k) <==> k in AllEntries(s)
  {
    if k in AllEntries(s) {
      EntriesCovered(s, k);
      var w :| w in Registered(s) && k in Entries(w);
      assert w in ws;
    }
    if Written(ws, k) {
      var w :| w in ws && k in Entries(w);
      WritersAgree(s, w, k);
    }
  }

  /** Does `r` hold at `k` what `d` overridden by `o` holds there? */
  ghost predicate OverriddenAt(r: map<string, string>, d: map<string, string>, o: map<string, string>, k: string) {
    if k in o then k in r && r[k] == o[k] else (k in r <==> k in d) && (k in d ==> r[k] == d[k])
  }

  lemma OverriddenEverywhere(r: map<string, string>, d: map<string, string>, o: map<string, string>)
    requires forall k :: OverriddenAt(r, d, o, k)
    ensures r == d + o
  {
    assert forall k :: k in r <==> k in d + o by {
      forall k ensures k in r <==> k in d + o { assert OverriddenAt(r, d, o, k); }
    }
    forall k | k in r ensures r[k] == (d + o)[k] { assert OverriddenAt(r, d, o, k); }
  }

  /** Any order that has all four writers writes all entries. */
  lemma FoldIsUnion(s: Settings, ws: seq<Writer>, d: map<string, string>)
    requires Permutation(ws, Registered(s))
    ensures FoldBroker(ws, d) == d + AllEntries(s)
  {
    PermutationMembers(ws, Registered(s));
    var r, all := FoldBroker(ws, d), AllEntries(s);
    forall k ensures OverriddenAt(r, d, all, k) {
      WrittenExactly(s, ws, k);
      FoldValue(s, ws, d, k);
    }
    OverriddenEverywhere(r, d, all);
  }

  lemma TransformersSnoc(ws: seq<Writer>, ns: string, r: Resource)
    requires ws != []
    ensures var prev := RunAll(TransformersOf(ws[..|ws| - 1], ns), r);
            RunAll(TransformersOf(ws, ns), r) ==
            if prev.Err? then prev else Run(TransformerOf(ws[|ws| - 1], ns), prev.value)
  {
    var ts := TransformersOf(ws[..|ws| - 1], ns);
    assert (ts + [TransformerOf(ws[|ws| - 1], ns)])[..|ts|] == ts;
  }

  ghost predicate IsBrokerConfig(r: Resource, ns: string) {
    r.id.kind == "ConfigMap" && r.id.namespace == ns && r.id.name == BROKER_CONFIG
  }

  lemma {:induction false} RunWithData(ws: seq<Writer>, ns: string, r: Resource)
    requires IsBrokerConfig(r, ns) && r.data.Some?
    ensures RunAll(TransformersOf(ws, ns), r) == Ok(r.(data := Some(FoldBroker(ws, r.data.value))))
  {
    if ws != [] {
      RunWithData(ws[..|ws| - 1], ns, r);
      TransformersSnoc(ws, ns, r);
      OverrideEmpty(FoldBroker(ws[..|ws| - 1], r.data.value));
    }
  }

  lemma {:induction false} RunWithoutData(ws: seq<Writer>, ns: string, r: Resource)
    requires IsBrokerConfig(r, ns) && r.data.None?
    ensures RunAll(TransformersOf(ws, ns), r) ==
            if exists w :: w in ws && Entries(w) != map[] then Err(ConfigMapFailed) else Ok(r)
  {
    if ws != [] {
      var init, last := ws[..|ws| - 1], ws[|ws| - 1];
      assert ws == init + [last] && last in ws;
      RunWithoutData(init, ns, r);
      TransformersSnoc(ws, ns, r);
    }
  }

  /**
   * On kafka-broker-config the four writers commute: every order of them, each ranging over
   * its map in any order, succeeds exactly when the ConfigMap has data, and adds all entries
   * to it with none of them lost.
   */
  lemma WritersCommute(s: Settings, ws: seq<Writer>, ns: string, r: Resource)
    requires Permutation(ws, Registered(s)) && IsBrokerConfig(r, ns)
    ensures RunAll(TransformersOf(ws, ns), r) ==
            if r.data.None? then Err(ConfigMapFailed) else Ok(r.(data := Some(r.data.value + AllEntries(s))))
  {
    if r.data.Some? {
      RunWithData(ws, ns, r);
      FoldIsUnion(s, ws, r.data.value);
    } else {
      RunWithoutData(ws, ns, r);
      PermutationMembers(ws, Registered(s));
      var w := Registered(s)[0];
      assert w in Registered(s) && w in ws && BOOTSTRAP in Entries(w);
    }
  }

  /** What a reader of the ConfigMap then finds: the three settings under their keys, */
  lemma EverySettingReadable(s: Settings, d: map<string, string>)
    ensures var r := d + AllEntries(s);
            && "bootstrap.servers" in r && r["bootstrap.servers"] == Join(s.servers)
            && "default.topic.partitions" in r && r["default.topic.partitions"] == Decimal(s.partitions)
            && "default.topic.replication.factor" in r
            && r["default.topic.replication.factor"] == Decimal(s.replication)
  {
    assert BOOTSTRAP[0] != PARTITIONS[0] && BOOTSTRAP[0] != REPLICATION[0] && PARTITIONS[14] != REPLICATION[14];
  }

  /** and every option under its prefixed key. */
  lemma EveryOptionReadable(s: Settings, d: map<string, string>, k: string)
    requires k in s.options
    ensures "default.topic.config." + k in d + AllEntries(s)
    ensures (d + AllEntries(s))["default.topic.config." + k] == s.options[k]
  {
    PrefixedOptions(s.options);
    WritersAgree(s, Registered(s)[3], PREFIX + k);
  }

  /** Any other resource is left alone, except that the bootstrap servers also go into kafka-channel-config. */
  lemma {:induction false} OthersUntouched(s: Settings, ws: seq<Writer>, ns: string, r: Resource)
    requires (forall w :: w in ws ==> w in Registered(s)) && !IsBrokerConfig(r, ns)
    requires r.id.kind != "ConfigMap" || r.id.namespace != ns || r.id.name != CHANNEL_CONFIG
    ensures RunAll(TransformersOf(ws, ns), r) == Ok(r)
  {
    if ws != [] {
      OthersUntouched(s, ws[..|ws| - 1], ns, r);
      TransformersSnoc(ws, ns, r);
    }
  }

  /** kafka-channel-config gets the bootstrap servers and nothing else, wherever their writer stands in the order. */
  lemma {:induction false} ChannelGetsServers(s: Settings, ws: seq<Writer>, ns: string, r: Resource)
    requires forall w :: w in ws ==> w in Registered(s)
    requires r.id.kind == "ConfigMap" && r.id.namespace == ns && r.id.name == CHANNEL_CONFIG && r.data.Some?
    ensures RunAll(TransformersOf(ws, ns), r) ==
            Ok(if BootstrapServers(s.servers) in ws
               then r.(data := Some(r.data.value + map[BOOTSTRAP := Join(s.servers)])) else r)
  {
    if ws != [] {
      var init, last := ws[..|ws| - 1], ws[|ws| - 1];
      assert ws == init + [last] && last in ws;
      ChannelGetsServers(s, init, ns, r);
      TransformersSnoc(ws, ns, r);
      ChannelStep(s, last, ns, r);
      ChannelStep(s, last, ns, r.(data := Some(r.data.value + map[BOOTSTRAP := Join(s.servers)])));
      OverrideIdempotent(r.data.value, map[BOOTSTRAP := Join(s.servers)]);
    }
  }

  lemma ChannelStep(s: Settings, w: Writer, ns: string, r: Resource)
    requires w in Registered(s)
    requires r.id.kind == "ConfigMap" && r.id.namespace == ns && r.id.name == CHANNEL_CONFIG && r.data.Some?
    ensures Run(TransformerOf(w, ns), r) ==
            Ok(if w == BootstrapServers(s.servers)
               then r.(data := Some(r.data.value + map[BOOTSTRAP := Join(s.servers)])) else r)
  {
    EntriesEmpty(w);
  }

  /** The ConfigMaps that are written are these two. */
  lemma WrittenConfigMaps(ns: string, r: Resource)
    ensures IsBrokerConfig(r, ns) <==>
            r.id.kind == "ConfigMap" && r.id.namespace == ns && r.id.name == "kafka-broker-config"
    ensures forall w: Writer, namespace, name :: Concerns(w, ns, namespace, name) ==>
              namespace == ns && (name == "kafka-broker-config" || name == "kafka-channel-config")
  {
  }

  // ----- The values -----

  lemma DigitChars(i: nat)
    requires i < 10
    ensures SemVer.IsDigit("0123456789"[i]) && "0123456789"[i] as int == '0' as int + i
  {
  }

  /** Numerals are decimal: reading the digits gives the number back, and there are no leading zeros. */
  lemma {:induction false} DigitsRead(n: nat)
    ensures SemVer.AllDigits(Digits(n)) && SemVer.Digits(Digits(n)) == n
    ensures n > 0 ==> Digits(n)[0] != '0'
  {
    DigitChars(n % 10);
    var last := "0123456789"[n % 10];
    if n < 10 {
      assert Digits(n) == "" + [last];
      ReadSnoc("", last);
    } else {
      DigitsRead(n / 10);
      assert Digits(n) == Digits(n / 10) + [last];
      ReadSnoc(Digits(n / 10), last);
    }
  }

  lemma ReadSnoc(s: string, c: char)
    requires (forall i :: 0 <= i < |s| ==> SemVer.IsDigit(s[i])) && SemVer.IsDigit(c)
    ensures SemVer.AllDigits(s + [c]) && SemVer.Digits(s + [c]) == 10 * SemVer.Digits(s) + (c as int - '0' as int)
  {
    assert (s + [c])[..|s|] == s;
  }

  /** A partition count or replication factor reads back as itself, with its sign. */
  lemma DecimalReads(n: int)
    requires MIN_INT64 <= n <= MAX_INT64
    ensures SemVer.ParseInt64(Decimal(n)) == Some(n)
  {
    var m: nat := if n < 0 then -n else n;
    DigitsRead(m);
    SemVer.NumeralParses(Decimal(n), Digits(m), n);
  }

  /** The parts of a list separated by commas. */
  function Servers(s: string): (parts: seq<string>)
    ensures |parts| > 0
  {
    if s == "" then [""]
    else if s[0] == ',' then [""] + Servers(s[1..])
    else
      var rest := Servers(s[1..]);
      [[s[0]] + rest[0]] + rest[1..]
  }

  lemma {:induction false} ServersOfOne(p: string)
    requires ',' !in p
    ensures Servers(p) == [p]
  {
    if p != "" {
      ServersOfOne(p[1..]);
      assert p == [p[0]] + p[1..];
    }
  }

  lemma {:induction false} ServersOfMore(p: string, rest: string)
    requires ',' !in p
    ensures Servers(p + "," + rest) == [p] + Servers(rest)
  {
    var s := p + "," + rest;
    if p == "" {
      assert s[0] == ',' && s[1..] == rest;
    } else {
      assert s[1..] == p[1..] + "," + rest;
      ServersOfMore(p[1..], rest);
      assert p == [p[0]] + p[1..];
    }
  }

  /** The bootstrap servers: splitting the value at its commas gives the list back, for server names without commas. */
  lemma {:induction false} JoinReads(servers: seq<string>)
    requires servers != [] && forall p :: p in servers ==> ',' !in p
    ensures Servers(Join(servers)) == servers
  {
    assert servers[0] in servers;
    if |servers| == 1 {
      ServersOfOne(servers[0]);
    } else {
      assert servers == [servers[0]] + servers[1..];
      JoinReads(servers[1..]);
      ServersOfMore(servers[0], Join(servers[1..]));
    }
  }
}
