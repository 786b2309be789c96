/** The cache of findings: a cached answer is the answer a fresh check would give.

    Findings are cached under a hash of the definition and the bind files. Strings stand for their bytes,
    one character for one byte. The hash function is given, and assumed to have no collision among the
    streams that are hashed. */
module PolicyCache {
  import opened Wrappers
  import opened Policy
  import opened PolicyFindings
  import opened PolicyKeys
  import Ordering
  import PolicyFacts

  // ---------------------------------------------------------------------------------------------
  // The stream that is hashed
  // ---------------------------------------------------------------------------------------------

  type Bytes = seq<nat>

  /** Eight bytes can hold a length below this. */
  const LENGTH_LIMIT := 0x1_0000_0000_0000_0000

  function BigEndian(n: nat, width: nat): (bytes: Bytes)
    ensures |bytes| == width
  {
    if width == 0 then [] else BigEndian(n / 256, width - 1) + [n % 256]
  }

  function Encode(value: string): (bytes: Bytes)
    ensures |bytes| == |value|
  {
    seq(|value|, i requires 0 <= i < |value| => value[i] as nat)
  }

  /** A value after its length. */
  function Field(value: string): Bytes {
    BigEndian(|value|, 8) + Encode(value)
  }

  function Fields(values: seq<string>): Bytes {
    if values == [] then [] else Field(values[0]) + Fields(values[1..])
  }

  function Stream(definition: string, bindFiles: seq<string>): Bytes {
    Fields([definition] + Ordering.Sorted(bindFiles))
  }

  ghost predicate Fits(values: seq<string>) {
    forall value | value in values :: |value| < LENGTH_LIMIT
  }

  ghost function Power(width: nat): nat {
    if width == 0 then 1 else 256 * Power(width - 1)
  }

  lemma {:induction false} BigEndianIsInjective(a: nat, b: nat, width: nat)
    requires a < Power(width) && b < Power(width)
    requires BigEndian(a, width) == BigEndian(b, width)
    ensures a == b
  {
    if width > 0 {
      var (x, y) := (BigEndian(a / 256, width - 1), BigEndian(b / 256, width - 1));
      assert BigEndian(a, width)[..width - 1] == x && BigEndian(b, width)[..width - 1] == y;
      assert BigEndian(a, width)[width - 1] == a % 256 && BigEndian(b, width)[width - 1] == b % 256;
      BigEndianIsInjective(a / 256, b / 256, width - 1);
    }
  }

  lemma EightBytes()
    ensures Power(8) == LENGTH_LIMIT
  {
    assert Power(4) == 0x1_0000_0000;
  }

  lemma SplitAtSameLength<T>(a: seq<T>, b: seq<T>, rest: seq<T>, rest': seq<T>)
    requires a + rest == b + rest' && |a| == |b|
    ensures a == b && rest == rest'
  {
    assert (a + rest)[..|a|] == a && (b + rest')[..|a|] == b;
    assert (a + rest)[|a|..] == rest && (b + rest')[|a|..] == rest';
  }

  lemma SplitTwice<T>(a: seq<T>, b: seq<T>, mid: seq<T>, mid': seq<T>, rest: seq<T>, rest': seq<T>)
    requires a + mid + rest == b + mid' + rest' && |a| == |b|
    ensures a == b && mid + rest == mid' + rest'
  {
    assert a + mid + rest == a + (mid + rest) && b + mid' + rest' == b + (mid' + rest');
    SplitAtSameLength(a, b, mid + rest, mid' + rest');
  }

  lemma EncodeIsInjective(a: string, b: string)
    requires Encode(a) == Encode(b)
    ensures a == b
  {
    assert |a| == |Encode(a)| == |Encode(b)| == |b|;
    forall i | 0 <= i < |a| ensures a[i] == b[i] {
      assert Encode(a)[i] == Encode(b)[i];
    }
  }

  lemma SameLength(a: nat, b: nat)
    requires a < LENGTH_LIMIT && b < LENGTH_LIMIT && BigEndian(a, 8) == BigEndian(b, 8)
    ensures a == b
  {
    EightBytes();
    BigEndianIsInjective(a, b, 8);
  }

  /** The length says where a field ends. */
  lemma FieldsSplit(a: string, b: string, rest: Bytes, rest': Bytes)
    requires |a| < LENGTH_LIMIT && |b| < LENGTH_LIMIT
    requires Field(a) + rest == Field(b) + rest'
    ensures a == b && rest == rest'
  {
    SplitTwice(BigEndian(|a|, 8), BigEndian(|b|, 8), Encode(a), Encode(b), rest, rest');
    SameLength(|a|, |b|);
    SplitAtSameLength(Encode(a), Encode(b), rest, rest');
    EncodeIsInjective(a, b);
  }

  lemma {:induction false} FieldsAreInjective(a: seq<string>, b: seq<string>)
    requires Fits(a) && Fits(b) && Fields(a) == Fields(b)
    ensures a == b
    decreases |a|
  {
    if a != [] && b != [] {
      FieldsSplit(a[0], b[0], Fields(a[1..]), Fields(b[1..]));
      FieldsAreInjective(a[1..], b[1..]);
      assert a == [a[0]] + a[1..] && b == [b[0]] + b[1..];
    }
  }

  /** The stream tells the definition and which bind files there are, but not their order. */
  lemma StreamDeterminesContent(a: string, b: string, files: seq<string>, files': seq<string>)
    requires Fits([a] + files) && Fits([b] + files')
    ensures Stream(a, files) == Stream(b, files') <==> a == b && multiset(files) == multiset(files')
  {
    var (x, y) := ([a] + Ordering.Sorted(files), [b] + Ordering.Sorted(files'));
    assert forall value | value in Ordering.Sorted(files) :: value in multiset(files);
    assert forall value | value in Ordering.Sorted(files') :: value in multiset(files');
    assert a in [a] + files && b in [b] + files';
    assert Fits(x) && Fits(y);
    Ordering.SortedIsCanonical(files, files');
    if Stream(a, files) == Stream(b, files') {
      FieldsAreInjective(x, y);
      assert x[0] == a && y[0] == b && x[1..] == Ordering.Sorted(files) && y[1..] == Ordering.Sorted(files');
    }
  }

  lemma {:induction false} FieldsAppend(values: seq<string>, value: string)
    ensures Fields(values + [value]) == Fields(values) + Field(value)
  {
    if values != [] {
      FieldsAppend(values[1..], value);
      assert (values + [value])[1..] == values[1..] + [value];
    }
  }

  lemma NextFile(definition: string, files: seq<string>, i: nat)
    requires i < |files|
    ensures Fields([definition] + files[..i + 1]) == Fields([definition] + files[..i]) + Field(files[i])
  {
    FieldsAppend([definition] + files[..i], files[i]);
    assert [definition] + files[..i] + [files[i]] == [definition] + files[..i + 1];
  }

  lemma OnlyField(value: string)
    ensures Fields([value]) == Field(value)
  {
  }

  /** A hash function that is fed piece by piece. */
  class Hasher {
    const sha256: Bytes -> Bytes
    var written: Bytes

    constructor (sha256: Bytes -> Bytes)
      ensures this.sha256 == sha256 && written == []
    {
      this.sha256, this.written := sha256, [];
    }

    method Write(bytes: Bytes)
      modifies this
      ensures written == old(written) + bytes
    {
      written := written + bytes;
    }

    method WriteField(value: string)
      modifies this
      ensures written == old(written) + Field(value)
    {
      Write(BigEndian(|value|, 8));
      Write(Encode(value));
    }

    method Sum() returns (digest: Bytes)
      ensures digest == sha256(written)
    {
      return sha256(written);
    }
  }

  method HashInput(sha256: Bytes -> Bytes, definition: string, bindFiles: seq<string>) returns (digest: Bytes)
    ensures digest == sha256(Stream(definition, bindFiles))
  {
    hide Fields;
    var hasher := new Hasher(sha256);
    hasher.WriteField(definition);
    OnlyField(definition);
    var sorted := Ordering.Sorted(bindFiles);
    assert [definition] + sorted[..0] == [definition];
    for i := 0 to |sorted|
      invariant hasher.sha256 == sha256
      invariant hasher.written == Fields([definition] + sorted[..i])
    {
      hasher.WriteField(sorted[i]);
      NextFile(definition, sorted, i);
    }
    assert [definition] + sorted[..|sorted|] == [definition] + sorted;
    digest := hasher.Sum();
  }

  // ---------------------------------------------------------------------------------------------
  // Steps of concurrent checks
  // ---------------------------------------------------------------------------------------------

  datatype Input = Input(raw: Yaml, topology: Option<Topology>, text: string, bindFiles: seq<string>)

  datatype Entry = Entry(hash: Bytes, findings: seq<Finding>)

  type Cache = map<string, Entry>

  /** What is given: the options, the hash function and the decoders that make the other inputs from the text. */
  datatype Setting = Setting(options: Options, sha256: Bytes -> Bytes, decode: string -> (Yaml, Option<Topology>))

  ghost function Fresh(setting: Setting, input: Input): seq<Finding> {
    Findings(setting.options, input.raw, input.topology, input.text, input.bindFiles)
  }

  function Hash(setting: Setting, input: Input): Bytes {
    setting.sha256(Stream(input.text, input.bindFiles))
  }

  /** An input as the callers of Check make it. */
  ghost predicate IsDecoded(setting: Setting, input: Input) {
    && (input.raw, input.topology) == setting.decode(input.text)
    && Fits([input.text] + input.bindFiles)
  }

  ghost predicate NoCollision(setting: Setting, inputs: iset<Input>) {
    && (forall input | input in inputs :: IsDecoded(setting, input))
    && (forall a, b | a in inputs && b in inputs && Hash(setting, a) == Hash(setting, b) ::
          Stream(a.text, a.bindFiles) == Stream(b.text, b.bindFiles))
  }

  /** Checks run at the same time. What they do to the cache are single steps under its lock: a check looks for
      its input and, if it finds nothing, stores its findings later, while other checks and deletions go on. */
  datatype Step =
    | Look(topologyId: string, input: Input)
    | Store(topologyId: string, input: Input)
    | Forget(topologyId: string)

  function Found(setting: Setting, cache: Cache, topologyId: string, hash: Bytes): Option<seq<Finding>> {
    if topologyId in cache && cache[topologyId].hash == hash then Some(cache[topologyId].findings) else None
  }

  ghost function After(setting: Setting, cache: Cache, step: Step): Cache {
    match step
    case Look(_, _) => cache
    case Store(id, input) => cache[id := Entry(Hash(setting, input), Fresh(setting, input))]
    case Forget(id) => cache - {id}
  }

  ghost function Run(setting: Setting, cache: Cache, steps: seq<Step>): Cache {
    if steps == [] then cache
    else After(setting, Run(setting, cache, steps[..|steps| - 1]), steps[|steps| - 1])
  }

  ghost predicate Uses(steps: seq<Step>, inputs: iset<Input>) {
    forall step | step in steps && !step.Forget? :: step.input in inputs
  }

  /** Every entry holds the fresh findings of an input it was stored for. */
  ghost predicate EntriesAreFresh(setting: Setting, inputs: iset<Input>, cache: Cache) {
    forall id | id in cache :: exists input | input in inputs ::
      cache[id] == Entry(Hash(setting, input), Fresh(setting, input))
  }

  /** Inputs with the same hash have the same findings. */
  lemma SameHashSameFindings(setting: Setting, inputs: iset<Input>, a: Input, b: Input)
    requires NoCollision(setting, inputs) && a in inputs && b in inputs && Hash(setting, a) == Hash(setting, b)
    ensures Fresh(setting, a) == Fresh(setting, b) && a.text == b.text && multiset(a.bindFiles) == multiset(b.bindFiles)
  {
    assert IsDecoded(setting, a) && IsDecoded(setting, b);
    StreamDeterminesContent(a.text, b.text, a.bindFiles, b.bindFiles);
    assert forall file | file in a.bindFiles :: file in multiset(b.bindFiles);
    assert forall file | file in b.bindFiles :: file in multiset(a.bindFiles);
    PolicyFacts.OnlyTheSetOfFilesMatters(setting.options, a.raw, a.topology, a.text, a.bindFiles, b.bindFiles);
  }

  lemma FoundIsFresh(setting: Setting, inputs: iset<Input>, cache: Cache, id: string, input: Input)
    requires NoCollision(setting, inputs) && EntriesAreFresh(setting, inputs, cache) && input in inputs
    ensures var found := Found(setting, cache, id, Hash(setting, input));
            found.Some? ==> found.value == Fresh(setting, input)
  {
    hide Fresh, Hash, NoCollision;
    if Found(setting, cache, id, Hash(setting, input)).Some? {
      var stored :| stored in inputs && cache[id] == Entry(Hash(setting, stored), Fresh(setting, stored));
      SameHashSameFindings(setting, inputs, stored, input);
    }
  }

  lemma StepStaysFresh(setting: Setting, inputs: iset<Input>, cache: Cache, step: Step)
    requires EntriesAreFresh(setting, inputs, cache) && (step.Forget? || step.input in inputs)
    ensures EntriesAreFresh(setting, inputs, After(setting, cache, step))
  {
    hide Fresh, Hash;
  }

  lemma {:induction false} RunsStayFresh(setting: Setting, inputs: iset<Input>, steps: seq<Step>)
    requires Uses(steps, inputs)
    ensures EntriesAreFresh(setting, inputs, Run(setting, map[], steps))
    decreases |steps|
  {
    if steps != [] {
      var step := steps[|steps| - 1];
      RunsStayFresh(setting, inputs, steps[..|steps| - 1]);
      assert step in steps;
      StepStaysFresh(setting, inputs, Run(setting, map[], steps[..|steps| - 1]), step);
    }
  }

  /** However checks and deletions interleave, a check that finds something finds what it would compute. */
  lemma CachedAnswersAreFresh(setting: Setting, inputs: iset<Input>, steps: seq<Step>, id: string, input: Input)
    requires NoCollision(setting, inputs) && Uses(steps, inputs) && input in inputs
    ensures var found := Found(setting, Run(setting, map[], steps), id, Hash(setting, input));
            found.Some? ==> found.value == Fresh(setting, input)
  {
    RunsStayFresh(setting, inputs, steps);
    FoundIsFresh(setting, inputs, Run(setting, map[], steps), id, input);
  }

  /** Findings are reused exactly while the text stays the same and no bind file is added or removed. */
  lemma ReusedForSameContent(setting: Setting, inputs: iset<Input>, cache: Cache, id: string, stored: Input,
                             input: Input)
    requires NoCollision(setting, inputs) && stored in inputs && input in inputs
    ensures Found(setting, After(setting, cache, Store(id, stored)), id, Hash(setting, input)).Some?
            <==> stored.text == input.text && multiset(stored.bindFiles) == multiset(input.bindFiles)
  {
    assert IsDecoded(setting, stored) && IsDecoded(setting, input);
    StreamDeterminesContent(stored.text, input.text, stored.bindFiles, input.bindFiles);
  }

  // ---------------------------------------------------------------------------------------------
  // The engine
  // ---------------------------------------------------------------------------------------------

  class FindingsCache {
    var entries: Cache

    constructor ()
      ensures entries == map[]
    {
      entries := map[];
    }

    method Get(topologyId: string, contentHash: Bytes) returns (findings: seq<Finding>, ok: bool)
      ensures (if ok then Some(findings) else None)
              == if topologyId in entries && entries[topologyId].hash == contentHash
                 then Some(entries[topologyId].findings) else None
    {
      if topologyId !in entries || entries[topologyId].hash != contentHash {
        return [], false;
      }
      return entries[topologyId].findings, true;
    }

    method Set(topologyId: string, contentHash: Bytes, findings: seq<Finding>)
      modifies this
      ensures entries == old(entries)[topologyId := Entry(contentHash, findings)]
    {
      entries := entries[topologyId := Entry(contentHash, findings)];
    }

    method Forget(topologyId: string)
      modifies this
      ensures entries == old(entries) - {topologyId}
    {
      entries := entries - {topologyId};
    }
  }

  class Engine {
    const setting: Setting
    const cache: FindingsCache

    constructor (setting: Setting)
      ensures this.setting == setting && fresh(cache) && cache.entries == map[]
    {
      this.setting := setting;
      this.cache := new FindingsCache();
    }

    /** The inputs are ones that checks are made for, and the cache is one that checks have left. */
    ghost predicate Valid(inputs: iset<Input>)
      reads cache
    {
      NoCollision(setting, inputs) && EntriesAreFresh(setting, inputs, cache.entries)
    }

    /** The answer is always that of a fresh check. A check without a usable entry leaves one. */
    method Check(topologyId: string, input: Input, ghost inputs: iset<Input>) returns (findings: seq<Finding>)
      requires Valid(inputs) && input in inputs
      modifies cache
      ensures Valid(inputs)
      ensures findings == Fresh(setting, input)
      ensures cache.entries == old(if Found(setting, cache.entries, topologyId, Hash(setting, input)).Some?
                                   then cache.entries
                                   else After(setting, cache.entries, Store(topologyId, input)))
    {
      hide TextFindings, RootFindings, TopologyFindings, Stream;
      var inputHash := HashInput(setting.sha256, input.text, input.bindFiles);
      FoundIsFresh(setting, inputs, cache.entries, topologyId, input);
      var ok;
      findings, ok := cache.Get(topologyId, inputHash);
      if ok {
        return;
      }
      var checker := new Checker(setting.options, input.bindFiles);
      checker.Run(input.raw, input.topology, input.text);
      findings := checker.findings;
      cache.Set(topologyId, inputHash, findings);
    }

    method Forget(topologyId: string, ghost inputs: iset<Input>)
      requires Valid(inputs)
      modifies cache
      ensures Valid(inputs)
      ensures cache.entries == old(After(setting, cache.entries, Step.Forget(topologyId)))
    {
      cache.Forget(topologyId);
    }
  }
}
