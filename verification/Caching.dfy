/** The JSON cache over a storage, and the caching middleware around a model. */
module Caching {
  import opened CacheKey
  import opened Json
  import opened Text

  // ----- the JSON cache -----

  /**
   * The JSON library: reading and writing texts, and the payload that wraps a response body.
   * `known` are the values it represents: maps with distinct keys, and numbers that it reads back.
   */
  datatype Codec = Codec(
    parse: string -> Option<Json>, render: Json -> string, known: Json -> bool,
    encode: string -> Json, decode: Json -> Option<string>)

  /** What reading a rendered value gives, where `Rereads` holds. */
  function Reread(codec: Codec, v: Json): Json {
    match codec.parse(codec.render(v))
    case Some(read) => read
    case None => v
  }

  /** A rendered value reads back equal: objects in whatever order, numbers of the same value. */
  ghost predicate Rereads(codec: Codec, v: Json) {
    codec.parse(codec.render(v)).Some? && codec.known(Reread(codec, v)) && Same(Reread(codec, v), v)
  }

  /** The library reads back what it represents, and represents the fields of that. */
  ghost predicate ReadsBack(codec: Codec) {
    && (forall v :: codec.known(v) ==> Valid(v) && Rereads(codec, v))
    && (forall entries: seq<Entry<Json>>, k :: 0 <= k < |entries| && codec.known(Obj(entries)) ==>
          codec.known(entries[k].value))
  }

  /** A payload is not `null`, and a value equal to it decodes to its body and can be put into an envelope. */
  ghost predicate Decodes(codec: Codec) {
    && (forall body :: codec.known(codec.encode(body)) && codec.encode(body) != Null)
    && (forall body, v :: codec.known(v) && Same(v, codec.encode(body)) ==>
          codec.decode(v) == Some(body) && codec.known(Envelope(v, [])))
  }

  ghost predicate Faithful(codec: Codec) {
    ReadsBack(codec) && Decodes(codec)
  }

  type Files = map<string, string>

  /** `data.get(name)`. */
  function FieldOf(data: Json, name: string): Option<Json> {
    match data
    case Obj(entries) => EntryOf(entries, name)
    case _ => None
  }

  function EntryOf(entries: seq<Entry<Json>>, name: string): Option<Json> {
    if entries == [] then None
    else if entries[0].key == name then Some(entries[0].value)
    else EntryOf(entries[1..], name)
  }

  /** `map.insert(key, value)`: the key keeps its place. */
  function InsertEntry(entries: seq<Entry<Json>>, entry: Entry<Json>): seq<Entry<Json>> {
    if entries == [] then [entry]
    else if entries[0].key == entry.key then [entry] + entries[1..]
    else [entries[0]] + InsertEntry(entries[1..], entry)
  }

  /** `data.extend(debug)`. */
  function Extend(entries: seq<Entry<Json>>, debug: seq<Entry<Json>>): seq<Entry<Json>> {
    if debug == [] then entries else InsertEntry(Extend(entries, debug[..|debug| - 1]), debug[|debug| - 1])
  }

  function Envelope(value: Json, debug: seq<Entry<Json>>): Json {
    Obj(Extend([Entry("result", value)], debug))
  }

  lemma {:induction false} InsertedEntry(entries: seq<Entry<Json>>, entry: Entry<Json>, name: string)
    ensures EntryOf(InsertEntry(entries, entry), name)
      == if name == entry.key then Some(entry.value) else EntryOf(entries, name)
  {
    if entries != [] && entries[0].key != entry.key {
      InsertedEntry(entries[1..], entry, name);
      var inserted := InsertEntry(entries, entry);
      assert inserted[0] == entries[0] && inserted[1..] == InsertEntry(entries[1..], entry);
    }
  }

  function LastEntryOf(entries: seq<Entry<Json>>, name: string): Option<Json> {
    if entries == [] then None
    else if entries[|entries| - 1].key == name then Some(entries[|entries| - 1].value)
    else LastEntryOf(entries[..|entries| - 1], name)
  }

  /** The envelope holds the value, unless the debug data has a field `result`: then it holds the last of those. */
  lemma {:induction false} EnvelopeHolds(value: Json, debug: seq<Entry<Json>>)
    ensures FieldOf(Envelope(value, debug), "result")
      == if LastEntryOf(debug, "result").Some? then LastEntryOf(debug, "result") else Some(value)
  {
    if debug != [] {
      var most, last := debug[..|debug| - 1], debug[|debug| - 1];
      EnvelopeHolds(value, most);
      InsertedEntry(Extend([Entry("result", value)], most), last, "result");
    }
  }

  class Storage {
    var files: Files

    constructor ()
      ensures files == map[]
    {
      files := map[];
    }
  }

  /** The stored value of a key, as `get` returns it. */
  function Stored(codec: Codec, files: Files, key: string): Option<string> {
    if key !in files then None
    else
      match codec.parse(files[key])
      case None => None
      case Some(data) =>
        match FieldOf(data, "result")
        case None => None
        case Some(value) => Some(codec.render(value))
  }

  /** `get` deletes a file that is not JSON. */
  function AfterGet(codec: Codec, files: Files, key: string): Files {
    if key in files && codec.parse(files[key]).None? then files - {key} else files
  }

  class JsonCache {
    const storage: Storage
    const codec: Codec

    constructor (storage: Storage, codec: Codec)
      ensures this.storage == storage && this.codec == codec
    {
      this.storage := storage;
      this.codec := codec;
    }

    method Get(key: string) returns (r: Option<string>)
      modifies storage
      ensures r == Stored(codec, old(storage.files), key)
      ensures storage.files == AfterGet(codec, old(storage.files), key)
    {
      if key !in storage.files {
        return None;
      }
      var data := codec.parse(storage.files[key]);
      if data.None? {
        storage.files := storage.files - {key};
        return None;
      }
      var value := FieldOf(data.value, "result");
      if value.None? {
        return None;
      }
      r := Some(codec.render(value.value));
    }

    method SetWithDebug(key: string, value: string, debug: seq<Entry<Json>>) returns (r: Result<()>)
      modifies storage
      ensures r.Err? <==> codec.parse(value).None?
      ensures storage.files == match codec.parse(value)
                                case None => old(storage.files)
                                case Some(data) =>
                                  if data == Null then old(storage.files)
                                  else old(storage.files)[key := codec.render(Envelope(data, debug))]
    {
      var data := codec.parse(value);
      if data.None? {
        return Err("value is not JSON");
      }
      if data.value == Null {
        return Ok(());
      }
      storage.files := storage.files[key := codec.render(Envelope(data.value, debug))];
      r := Ok(());
    }

    method Delete(key: string)
      modifies storage
      ensures storage.files == old(storage.files) - {key}
    {
      if key in storage.files {
        storage.files := storage.files - {key};
      }
    }

    method Clear()
      modifies storage
      ensures storage.files == map[]
    {
      storage.files := map[];
    }
  }

  lemma SameTransitive(a: Json, b: Json, c: Json)
    requires Valid(a) && Valid(b) && Valid(c) && Same(a, b) && Same(b, c)
    ensures Same(a, c)
  {
    SameValues(a, b);
    SameValues(b, c);
    SameValues(a, c);
  }

  lemma {:induction false} EntryOfIndex(entries: seq<Entry<Json>>, name: string) returns (k: nat)
    requires EntryOf(entries, name).Some?
    ensures k < |entries| && entries[k].key == name && EntryOf(entries, name) == Some(entries[k].value)
  {
    if entries[0].key == name {
      k := 0;
    } else {
      var i := EntryOfIndex(entries[1..], name);
      k := i + 1;
    }
  }

  lemma {:induction false} EntryOfKey(entries: seq<Entry<Json>>, name: string)
    ensures EntryOf(entries, name).Some? <==> HasKey(entries, name)
  {
    if entries != [] {
      EntryOfKey(entries[1..], name);
      if HasKey(entries, name) && entries[0].key != name {
        var k :| 0 <= k < |entries| && entries[k].key == name;
        assert entries[1..][k - 1].key == name;
      }
      if HasKey(entries[1..], name) {
        var k :| 0 <= k < |entries[1..]| && entries[1..][k].key == name;
        assert entries[k + 1].key == name;
      }
    }
  }

  /** Equal values have equal fields. */
  lemma SameField(a: Json, b: Json, name: string)
    requires Same(a, b) && FieldOf(b, name).Some?
    ensures a.Obj? && FieldOf(a, name).Some? && Same(FieldOf(a, name).value, FieldOf(b, name).value)
  {
    EntryOfKey(a.entries, name);
    EntryOfKey(b.entries, name);
    var i := EntryOfIndex(a.entries, name);
    var j := EntryOfIndex(b.entries, name);
  }

  lemma KnownField(codec: Codec, v: Json, name: string)
    requires ReadsBack(codec) && codec.known(v) && FieldOf(v, name).Some?
    ensures codec.known(FieldOf(v, name).value)
  {
    var k := EntryOfIndex(v.entries, name);
  }

  lemma KnownRereads(codec: Codec, v: Json)
    requires ReadsBack(codec) && codec.known(v)
    ensures codec.parse(codec.render(v)) == Some(Reread(codec, v)) && Same(Reread(codec, v), v)
    ensures codec.known(Reread(codec, v)) && Valid(Reread(codec, v)) && Valid(v)
  {
    assert Rereads(codec, v);
  }

  /** What was set is what is read, up to the order of object fields; `null` is not set at all. */
  lemma GetAfterSet(codec: Codec, files: Files, key: string, value: Json, debug: seq<Entry<Json>>)
    requires ReadsBack(codec) && codec.known(value) && codec.known(Envelope(value, debug))
    requires LastEntryOf(debug, "result").None?
    ensures var read := Stored(codec, files[key := codec.render(Envelope(value, debug))], key);
      && read.Some? && codec.parse(read.value).Some?
      && codec.known(codec.parse(read.value).value) && Same(codec.parse(read.value).value, value)
  {
    hide ReadsBack, Same, Valid, Envelope;
    var envelope := Envelope(value, debug);
    EnvelopeHolds(value, debug);
    KnownRereads(codec, envelope);
    SameField(Reread(codec, envelope), envelope, "result");
    KnownField(codec, Reread(codec, envelope), "result");
    var held := FieldOf(Reread(codec, envelope), "result").value;
    KnownRereads(codec, held);
    KnownRereads(codec, value);
    SameTransitive(Reread(codec, held), held, value);
  }

  // ----- requests -----

  datatype Endpoint = Completion | Embedding

  /** Request fields as they serialise: the canonical ones, then the provider extras. */
  datatype Request = Request(endpoint: Endpoint, canonical: seq<Entry<Json>>, extra: seq<Entry<Json>>)

  const COMPLETION_RESERVED_FIELDS := [
    "messages", "response_format", "temperature", "top_p", "max_tokens", "max_completion_tokens", "n", "seed",
    "stop", "tools", "tool_choice", "presence_penalty", "frequency_penalty", "stream", "model"
  ]

  const EMBEDDING_RESERVED_FIELDS := ["input", "dimensions", "encoding_format", "user", "model"]

  function Reserved(endpoint: Endpoint): seq<string> {
    match endpoint case Completion => COMPLETION_RESERVED_FIELDS case Embedding => EMBEDDING_RESERVED_FIELDS
  }

  /** What the request types guarantee: field names of the type, maps with distinct keys, JSON values. */
  ghost predicate Typed(r: Request) {
    && Valid(Obj(r.canonical)) && Valid(Obj(r.extra))
    && forall k :: 0 <= k < |r.canonical| ==> r.canonical[k].key in Reserved(r.endpoint)
  }

  /** `validate_extra_fields`. */
  predicate NoConflict(r: Request) {
    forall k | 0 <= k < |r.extra| :: r.extra[k].key !in Reserved(r.endpoint)
  }

  predicate AllZero(digits: string) {
    forall k | 0 <= k < |digits| :: digits[k] == '0'
  }

  predicate IsTruthy(value: Json) {
    match value
    case Null => false
    case Bool(b) => b
    case Num(n) => !(AllZero(n.whole) && AllZero(n.fraction))
    case Str(s) => s != ""
    case Arr(items) => items != []
    case Obj(entries) => entries != []
  }

  predicate HasTruthyExtra(r: Request, name: string) {
    var value := EntryOf(r.extra, name);
    value.Some? && IsTruthy(value.value)
  }

  /** Streaming completions and mocked calls go around the cache. */
  predicate Bypasses(r: Request) {
    || (r.endpoint == Completion && EntryOf(r.canonical, "stream") == Some(Bool(true)))
    || HasTruthyExtra(r, "mock_response")
  }

  /** The kwargs of the key: completions always carry a `response_format`. */
  function Kwargs(r: Request): seq<Entry<Json>> {
    var fields := r.canonical + r.extra;
    if r.endpoint == Completion && EntryOf(fields, "response_format").None? then
      fields + [Entry("response_format", Null)]
    else fields
  }

  /** The hash is not modelled further than that distinct texts have distinct hashes. */
  ghost predicate CollisionFree(hash: string -> string) {
    forall s, t :: hash(s) == hash(t) ==> s == t
  }

  function RequestKey(hash: string -> string, r: Request): string {
    hash(KeyText(Obj(Kwargs(r)))) + "_v4"
  }

  lemma ValidConcat(x: seq<Entry<Json>>, y: seq<Entry<Json>>)
    requires Valid(Obj(x)) && Valid(Obj(y))
    requires forall i, j :: 0 <= i < |x| && 0 <= j < |y| ==> x[i].key != y[j].key
    ensures Valid(Obj(x + y))
  {
    var z := x + y;
    assert forall k :: 0 <= k < |z| ==> z[k] == if k < |x| then x[k] else y[k - |x|];
  }

  lemma KwargsAreValid(r: Request)
    requires Typed(r) && NoConflict(r)
    ensures Valid(Obj(Kwargs(r)))
  {
    ValidConcat(r.canonical, r.extra);
    var fields := r.canonical + r.extra;
    EntryOfKey(fields, "response_format");
    if Kwargs(r) != fields {
      ValidConcat(fields, [Entry("response_format", Null)]);
    }
  }

  /** Two requests get the same key exactly when their kwargs are equal as maps outside the excluded keys. */
  lemma SameKeySameKwargs(hash: string -> string, a: Request, b: Request)
    requires CollisionFree(hash) && Typed(a) && NoConflict(a) && Typed(b) && NoConflict(b)
    ensures RequestKey(hash, a) == RequestKey(hash, b) <==> SameKwargs(Kwargs(a), Kwargs(b))
  {
    KwargsAreValid(a);
    KwargsAreValid(b);
    KwargsKeyText(Kwargs(a), Kwargs(b));
    var s, t := hash(KeyText(Obj(Kwargs(a)))), hash(KeyText(Obj(Kwargs(b))));
    assert s + "_v4" == t + "_v4" ==> s == t by {
      assert (s + "_v4")[..|s + "_v4"| - 3] == s && (t + "_v4")[..|t + "_v4"| - 3] == t;
    }
  }

  /** A completion that leaves out `response_format` has the key of one that says it is null. */
  lemma MissingFormatIsNull(hash: string -> string, r: Request)
    requires CollisionFree(hash) && r.endpoint == Completion && Typed(r) && NoConflict(r)
    requires !HasKey(r.canonical + r.extra, "response_format")
    ensures RequestKey(hash, r) == RequestKey(hash, r.(canonical := r.canonical + [Entry("response_format", Null)]))
  {
    var format := [Entry("response_format", Null)];
    var said := r.(canonical := r.canonical + format);
    var x, y := r.canonical + r.extra + format, r.canonical + format + r.extra;
    EntryOfKey(r.canonical + r.extra, "response_format");
    EntryOfKey(y, "response_format");
    assert y[|r.canonical|].key == "response_format";
    KeepsTyped(r, format);
    KwargsAreValid(r);
    KwargsAreValid(said);
    forall e ensures e in x <==> e in y {}
    SameEntries(x, y);
    SameKeySameKwargs(hash, r, said);
  }

  lemma KeepsTyped(r: Request, format: seq<Entry<Json>>)
    requires r.endpoint == Completion && Typed(r) && format == [Entry("response_format", Null)]
    requires !HasKey(r.canonical + r.extra, "response_format")
    ensures Typed(r.(canonical := r.canonical + format))
  {
    forall k | 0 <= k < |r.canonical| ensures r.canonical[k].key != "response_format" {
      assert (r.canonical + r.extra)[k] == r.canonical[k];
    }
    ValidConcat(r.canonical, format);
    assert "response_format" in COMPLETION_RESERVED_FIELDS
      by { assert COMPLETION_RESERVED_FIELDS[1] == "response_format"; }
  }

  lemma SameEntries(x: seq<Entry<Json>>, y: seq<Entry<Json>>)
    requires Valid(Obj(x)) && Valid(Obj(y)) && forall e :: e in x <==> e in y
    ensures SameKwargs(x, y)
  {
    forall key: string ensures HasKey(x, key) <==> HasKey(y, key) {
      if HasKey(x, key) {
        var k :| 0 <= k < |x| && x[k].key == key;
        assert x[k] in y;
      }
      if HasKey(y, key) {
        var k :| 0 <= k < |y| && y[k].key == key;
        assert y[k] in x;
      }
    }
    forall i, j | 0 <= i < |x| && 0 <= j < |y| && x[i].key == y[j].key ensures Same(x[i].value, y[j].value) {
      assert x[i] in y;
      var k :| 0 <= k < |y| && y[k] == x[i];
      assert k == j;
      SameValues(x[i].value, x[i].value);
    }
  }

  // ----- the middleware -----

  datatype CacheStatus = NotUsed | Hit | Miss

  datatype Response = Response(body: string, cacheStatus: CacheStatus)

  /** The wrapped provider of completions or of embeddings: which requests it accepts, and its answer while it is up. */
  datatype Provider = Provider(endpoint: Endpoint, accepts: Request -> bool, answer: Request -> string)

  datatype Env = Env(codec: Codec, hash: string -> string, provider: Provider)

  /** The cached body of a key, or none when there is no usable entry. */
  function Payload(codec: Codec, files: Files, key: string): Option<string> {
    match Stored(codec, files, key)
    case None => None
    case Some(bytes) => match codec.parse(bytes) case None => None case Some(value) => codec.decode(value)
  }

  /** Reading deletes what is not JSON or not a payload. */
  function AfterRead(codec: Codec, files: Files, key: string): Files {
    if Stored(codec, files, key).Some? && Payload(codec, files, key).None? then AfterGet(codec, files, key) - {key}
    else AfterGet(codec, files, key)
  }

  function AfterWrite(codec: Codec, files: Files, key: string, body: string): Files {
    files[key := codec.render(Envelope(Reread(codec, codec.encode(body)), []))]
  }

  function Ask(env: Env, r: Request, up: bool, status: CacheStatus): Result<Response> {
    if up then Ok(Response(env.provider.answer(r), status)) else Err("provider failed")
  }

  /** A call that missed waits for the provider. */
  datatype Outcome = Done(result: Result<Response>) | Waits(key: string)

  function StartCall(env: Env, files: Files, r: Request, up: bool): (Outcome, Files) {
    if !env.provider.accepts(r) then (Done(Err("invalid request")), files)
    else if Bypasses(r) then (Done(Ask(env, r, up, NotUsed)), files)
    else if !NoConflict(r) then (Done(Err("invalid request")), files)
    else
      var key := RequestKey(env.hash, r);
      var cached := Payload(env.codec, files, key);
      (if cached.Some? then Done(Ok(Response(cached.value, Hit))) else Waits(key), AfterRead(env.codec, files, key))
  }

  function FinishCall(env: Env, files: Files, r: Request, key: string, up: bool): (Result<Response>, Files) {
    (Ask(env, r, up, Miss), if up then AfterWrite(env.codec, files, key, env.provider.answer(r)) else files)
  }

  class CachedModel {
    const env: Env
    const cache: JsonCache

    constructor (env: Env, cache: JsonCache)
      requires cache.codec == env.codec
      ensures this.env == env && this.cache == cache
    {
      this.env := env;
      this.cache := cache;
    }

    /** `read_cached`. */
    method ReadCached(key: string) returns (r: Option<string>)
      requires cache.codec == env.codec
      modifies cache.storage
      ensures r == Payload(env.codec, old(cache.storage.files), key)
      ensures cache.storage.files == AfterRead(env.codec, old(cache.storage.files), key)
    {
      var bytes := cache.Get(key);
      if bytes.None? {
        return None;
      }
      var value := env.codec.parse(bytes.value);
      r := if value.None? then None else env.codec.decode(value.value);
      if r.None? {
        cache.Delete(key);
      }
    }

    /** `write_cached`. */
    method WriteCached(key: string, body: string)
      requires cache.codec == env.codec && Faithful(env.codec)
      modifies cache.storage
      ensures cache.storage.files == AfterWrite(env.codec, old(cache.storage.files), key, body)
    {
      assert Rereads(env.codec, env.codec.encode(body));
      var written := cache.SetWithDebug(key, env.codec.render(env.codec.encode(body)), []);
    }

    /** `complete` and `embed`: `up` says whether the provider answers. */
    method Call(request: Request, up: bool) returns (r: Result<Response>)
      requires cache.codec == env.codec && Faithful(env.codec)
      modifies cache.storage
      ensures var (outcome, files) := StartCall(env, old(cache.storage.files), request, up);
              match outcome
              case Done(result) => r == result && cache.storage.files == files
              case Waits(key) => (r, cache.storage.files) == FinishCall(env, files, request, key, up)
    {
      if !env.provider.accepts(request) {
        return Err("invalid request");
      }
      if Bypasses(request) {
        return Ask(env, request, up, NotUsed);
      }
      if !NoConflict(request) {
        return Err("invalid request");
      }
      var key := RequestKey(env.hash, request);
      var cached := ReadCached(key);
      if cached.Some? {
        return Ok(Response(cached.value, Hit));
      }
      if !up {
        return Err("provider failed");
      }
      var body := env.provider.answer(request);
      WriteCached(key, body);
      r := Ok(Response(body, Miss));
    }
  }

  // ----- runs -----

  datatype Waiting = Waiting(request: Request, key: string)

  datatype Answer = Answer(request: Request, result: Result<Response>)

  /** The storage, the calls between their miss and their answer, and what happened so far. */
  datatype State = State(files: Files, waiting: seq<Waiting>, asked: seq<Request>, answered: seq<Answer>)

  /** Calls start, waiting calls finish in any order, and entries are overwritten or lost behind the cache's back. */
  datatype Event =
    | Start(request: Request, up: bool)
    | Finish(index: nat, up: bool)
    | Damage(key: string, bytes: Option<string>)

  function Damaged(files: Files, key: string, bytes: Option<string>): Files {
    match bytes case None => files - {key} case Some(b) => files[key := b]
  }

  function Step(env: Env, s: State, e: Event): State {
    match e
    case Start(request, up) =>
      var (outcome, files) := StartCall(env, s.files, request, up);
      if outcome.Done? then s.(files := files, answered := s.answered + [Answer(request, outcome.result)])
      else s.(files := files, waiting := s.waiting + [Waiting(request, outcome.key)])
    case Finish(index, up) =>
      if index >= |s.waiting| then s
      else
        var w := s.waiting[index];
        var (result, files) := FinishCall(env, s.files, w.request, w.key, up);
        State(files, s.waiting[..index] + s.waiting[index + 1..],
              if up then s.asked + [w.request] else s.asked, s.answered + [Answer(w.request, result)])
    case Damage(key, bytes) => s.(files := Damaged(s.files, key, bytes))
  }

  function Run(env: Env, s: State, events: seq<Event>): State {
    if events == [] then s else Step(env, Run(env, s, events[..|events| - 1]), events[|events| - 1])
  }

  /** A request of the type that the wrapped model takes. */
  ghost predicate Fits(env: Env, r: Request) {
    Typed(r) && r.endpoint == env.provider.endpoint
  }

  predicate Cacheable(env: Env, r: Request) {
    env.provider.accepts(r) && !Bypasses(r) && NoConflict(r)
  }

  /** The provider's answer depends on the kwargs that count. */
  ghost predicate Deterministic(env: Env) {
    forall a, b ::
      && Fits(env, a) && Fits(env, b) && Cacheable(env, a) && Cacheable(env, b)
      && SameKwargs(Kwargs(a), Kwargs(b)) ==>
      env.provider.answer(a) == env.provider.answer(b)
  }

  ghost predicate Sane(env: Env) {
    Faithful(env.codec) && CollisionFree(env.hash) && Deterministic(env)
  }

  /** A usable entry under the key of a request holds the provider's answer to that request. */
  ghost predicate SoundFiles(env: Env, files: Files) {
    forall r :: Fits(env, r) && Cacheable(env, r) && Payload(env.codec, files, RequestKey(env.hash, r)).Some? ==>
      Payload(env.codec, files, RequestKey(env.hash, r)).value == env.provider.answer(r)
  }

  ghost predicate SoundAnswer(env: Env, a: Answer) {
    a.result.Ok? ==> a.result.value.body == env.provider.answer(a.request)
  }

  /** A waiting call holds the key of its request. */
  ghost predicate SoundWaiting(env: Env, w: Waiting) {
    Fits(env, w.request) && Cacheable(env, w.request) && w.key == RequestKey(env.hash, w.request)
  }

  ghost predicate Sound(env: Env, s: State) {
    && SoundFiles(env, s.files)
    && (forall k :: 0 <= k < |s.waiting| ==> SoundWaiting(env, s.waiting[k]))
    && (forall k :: 0 <= k < |s.answered| ==> SoundAnswer(env, s.answered[k]))
  }

  /** Damage that leaves no usable entry behind. */
  ghost predicate Harmless(env: Env, e: Event) {
    match e
    case Start(request, _) => Fits(env, request)
    case Finish(_, _) => true
    case Damage(key, bytes) => bytes.Some? ==> Payload(env.codec, map[key := bytes.value], key).None?
  }

  lemma PayloadLocal(codec: Codec, files: Files, others: Files, key: string)
    requires (key in files <==> key in others) && (key in files ==> files[key] == others[key])
    ensures Payload(codec, files, key) == Payload(codec, others, key)
  {
  }

  lemma PayloadKnown(codec: Codec, body: string)
    requires Faithful(codec)
    ensures codec.known(codec.encode(body)) && codec.encode(body) != Null
  {
  }

  lemma DecodesSame(codec: Codec, v: Json, body: string)
    requires Faithful(codec) && codec.known(v) && Same(v, codec.encode(body))
    ensures codec.decode(v) == Some(body) && codec.known(Envelope(v, []))
  {
  }

  lemma PayloadWritten(env: Env, files: Files, key: string, body: string)
    requires Faithful(env.codec)
    ensures Payload(env.codec, AfterWrite(env.codec, files, key, body), key) == Some(body)
  {
    hide ReadsBack, Decodes, Same, Valid, Envelope;
    var codec, payload := env.codec, env.codec.encode(body);
    PayloadKnown(codec, body);
    KnownRereads(codec, payload);
    var data := Reread(codec, payload);
    DecodesSame(codec, data, body);
    GetAfterSet(codec, files, key, data, []);
    var read := codec.parse(Stored(codec, AfterWrite(codec, files, key, body), key).value).value;
    KnownRereads(codec, read);
    SameTransitive(read, data, payload);
    DecodesSame(codec, read, body);
  }

  lemma WriteKeepsOthers(codec: Codec, files: Files, key: string, body: string, other: string)
    requires other != key
    ensures Payload(codec, AfterWrite(codec, files, key, body), other) == Payload(codec, files, other)
  {
    PayloadLocal(codec, AfterWrite(codec, files, key, body), files, other);
  }

  lemma ReadKeepsPayloads(codec: Codec, files: Files, key: string, other: string)
    ensures Payload(codec, AfterRead(codec, files, key), other) == Payload(codec, files, other)
  {
    if other != key {
      PayloadLocal(codec, AfterRead(codec, files, key), files, other);
    }
  }

  lemma WriteKeepsSound(env: Env, files: Files, r: Request)
    requires Sane(env) && SoundFiles(env, files) && Fits(env, r) && Cacheable(env, r)
    ensures SoundFiles(env, AfterWrite(env.codec, files, RequestKey(env.hash, r), env.provider.answer(r)))
  {
    var key, body := RequestKey(env.hash, r), env.provider.answer(r);
    var written := AfterWrite(env.codec, files, key, body);
    PayloadWritten(env, files, key, body);
    forall other | Fits(env, other) && Cacheable(env, other) &&
      Payload(env.codec, written, RequestKey(env.hash, other)).Some?
      ensures Payload(env.codec, written, RequestKey(env.hash, other)).value == env.provider.answer(other)
    {
      if RequestKey(env.hash, other) == key {
        SameKeySameKwargs(env.hash, r, other);
      } else {
        WriteKeepsOthers(env.codec, files, key, body, RequestKey(env.hash, other));
      }
    }
  }

  lemma DamageKeepsSound(env: Env, files: Files, key: string, bytes: Option<string>)
    requires SoundFiles(env, files) && Harmless(env, Damage(key, bytes))
    ensures SoundFiles(env, Damaged(files, key, bytes))
  {
    var damaged := Damaged(files, key, bytes);
    forall r | Fits(env, r) && Cacheable(env, r) && Payload(env.codec, damaged, RequestKey(env.hash, r)).Some?
      ensures Payload(env.codec, damaged, RequestKey(env.hash, r)).value == env.provider.answer(r)
    {
      if RequestKey(env.hash, r) == key {
        PayloadLocal(env.codec, damaged, map[key := bytes.value], key);
      } else {
        PayloadLocal(env.codec, damaged, files, RequestKey(env.hash, r));
      }
    }
  }

  lemma ReadKeepsFilesSound(env: Env, files: Files, key: string)
    requires SoundFiles(env, files)
    ensures SoundFiles(env, AfterRead(env.codec, files, key))
  {
    hide Fits, Cacheable, Payload, RequestKey, AfterRead;
    forall r | Fits(env, r) && Cacheable(env, r) &&
      Payload(env.codec, AfterRead(env.codec, files, key), RequestKey(env.hash, r)).Some?
      ensures Payload(env.codec, AfterRead(env.codec, files, key), RequestKey(env.hash, r)).value
        == env.provider.answer(r)
    {
      ReadKeepsPayloads(env.codec, files, key, RequestKey(env.hash, r));
    }
  }

  lemma StartedFilesSound(env: Env, files: Files, request: Request, up: bool)
    requires SoundFiles(env, files) && Fits(env, request)
    ensures var (outcome, after) := StartCall(env, files, request, up);
      && SoundFiles(env, after)
      && (outcome.Done? ==> SoundAnswer(env, Answer(request, outcome.result)))
      && (outcome.Waits? ==> SoundWaiting(env, Waiting(request, outcome.key)))
  {
    hide Payload, RequestKey, AfterRead, Fits;
    ReadKeepsFilesSound(env, files, RequestKey(env.hash, request));
  }

  lemma StartKeepsSound(env: Env, s: State, request: Request, up: bool)
    requires Sound(env, s) && Fits(env, request)
    ensures Sound(env, Step(env, s, Start(request, up)))
  {
    hide SoundFiles, SoundWaiting, SoundAnswer, StartCall, Fits;
    StartedFilesSound(env, s.files, request, up);
    var after, outcome := Step(env, s, Start(request, up)), StartCall(env, s.files, request, up).0;
    if outcome.Done? {
      assert after.answered == s.answered + [Answer(request, outcome.result)] && after.waiting == s.waiting;
    } else {
      assert after.waiting == s.waiting + [Waiting(request, outcome.key)] && after.answered == s.answered;
    }
  }

  lemma FinishedFilesSound(env: Env, files: Files, w: Waiting, up: bool)
    requires Sane(env) && SoundFiles(env, files) && SoundWaiting(env, w)
    ensures SoundFiles(env, FinishCall(env, files, w.request, w.key, up).1)
    ensures SoundAnswer(env, Answer(w.request, FinishCall(env, files, w.request, w.key, up).0))
  {
    hide Sane, SoundFiles, Fits, AfterWrite, RequestKey, Cacheable;
    if up {
      WriteKeepsSound(env, files, w.request);
    }
  }

  lemma FinishKeepsSound(env: Env, s: State, index: nat, up: bool)
    requires Sane(env) && Sound(env, s)
    ensures Sound(env, Step(env, s, Finish(index, up)))
  {
    hide Sane, SoundFiles, SoundWaiting, SoundAnswer, FinishCall;
    if index < |s.waiting| {
      FinishedFilesSound(env, s.files, s.waiting[index], up);
    }
  }

  /**
   * Whatever the interleaving of calls, misses, provider failures and damaged
   * entries: every answer is the provider's answer to that very request.
   */
  lemma {:induction false} RunsAreSound(env: Env, s: State, events: seq<Event>)
    requires Sane(env) && Sound(env, s) && forall k :: 0 <= k < |events| ==> Harmless(env, events[k])
    ensures Sound(env, Run(env, s, events))
  {
    if events != [] {
      var last := events[|events| - 1];
      assert Harmless(env, last);
      RunsAreSound(env, s, events[..|events| - 1]);
      var before := Run(env, s, events[..|events| - 1]);
      match last
      case Start(request, up) => StartKeepsSound(env, before, request, up);
      case Finish(index, up) => FinishKeepsSound(env, before, index, up);
      case Damage(key, bytes) => DamageKeepsSound(env, before.files, key, bytes);
    }
  }

  /** A bypassed or refused call leaves every entry as it is and is answered at once, for `BypassesLeaveCache`. */
  lemma BypassLeavesCache(env: Env, s: State, request: Request, up: bool)
    requires !Cacheable(env, request)
    ensures var after := Step(env, s, Start(request, up));
      && after.files == s.files && after.waiting == s.waiting && after.asked == s.asked
      && |after.answered| == |s.answered| + 1
  {
  }

  /** However many of them: calls that are bypassed or refused never touch the cache, and are all answered. */
  lemma {:induction false} BypassesLeaveCache(env: Env, s: State, events: seq<Event>)
    requires forall k :: 0 <= k < |events| ==> events[k].Start? && !Cacheable(env, events[k].request)
    ensures var after := Run(env, s, events);
      && after.files == s.files && after.waiting == s.waiting && after.asked == s.asked
      && |after.answered| == |s.answered| + |events|
  {
    if events != [] {
      var most, last := events[..|events| - 1], events[|events| - 1];
      BypassesLeaveCache(env, s, most);
      BypassLeavesCache(env, Run(env, s, most), last.request, last.up);
    }
  }

  // ----- each key is asked once -----

  /** A call without overlap: started and, after a miss, finished. */
  function CallStep(env: Env, s: State, request: Request, up: bool): State {
    Step(env, Step(env, s, Start(request, up)), Finish(0, up))
  }

  /** `CachedModel.Call` takes that step, which puts it under `RunsAreSound` and `EachKeyExactlyOnce`. */
  lemma CallTakesStep(env: Env, s: State, request: Request, up: bool, r: Result<Response>, files: Files)
    requires s.waiting == []
    requires match StartCall(env, s.files, request, up)
             case (Done(result), after) => r == result && files == after
             case (Waits(key), after) => (r, files) == FinishCall(env, after, request, key, up)
    ensures var after := CallStep(env, s, request, up);
      after.files == files && after.answered == s.answered + [Answer(request, r)] && after.waiting == []
  {
    var started := Step(env, s, Start(request, up));
    if started.waiting != [] {
      assert started.waiting[..0] + started.waiting[1..] == [];
    }
  }

  datatype Call = Call(request: Request, up: bool)

  function Calls(env: Env, s: State, calls: seq<Call>): State {
    if calls == [] then s
    else CallStep(env, Calls(env, s, calls[..|calls| - 1]), calls[|calls| - 1].request, calls[|calls| - 1].up)
  }

  /** Nothing waits, and the provider has answered no key twice and only keys that are now usable. */
  ghost predicate Once(env: Env, s: State) {
    s.waiting == [] && AskedOnce(env, s.files, s.asked)
  }

  /** What the provider was asked for is usable, and no key twice. */
  ghost predicate AskedOnce(env: Env, files: Files, asked: seq<Request>) {
    && (forall k :: 0 <= k < |asked| ==> Payload(env.codec, files, RequestKey(env.hash, asked[k])).Some?)
    && (forall i, j :: 0 <= i < j < |asked| ==> RequestKey(env.hash, asked[i]) != RequestKey(env.hash, asked[j]))
  }

  lemma ReadKeepsAsked(env: Env, files: Files, asked: seq<Request>, key: string)
    requires AskedOnce(env, files, asked)
    ensures AskedOnce(env, AfterRead(env.codec, files, key), asked)
  {
    forall k | 0 <= k < |asked|
      ensures Payload(env.codec, AfterRead(env.codec, files, key), RequestKey(env.hash, asked[k])).Some?
    {
      ReadKeepsPayloads(env.codec, files, key, RequestKey(env.hash, asked[k]));
    }
  }

  lemma WriteKeepsAsked(env: Env, files: Files, asked: seq<Request>, r: Request, body: string)
    requires Faithful(env.codec) && AskedOnce(env, files, asked)
    requires Payload(env.codec, files, RequestKey(env.hash, r)).None?
    ensures AskedOnce(env, AfterWrite(env.codec, files, RequestKey(env.hash, r), body), asked + [r])
  {
    hide Faithful, Payload, RequestKey, AfterWrite;
    var key := RequestKey(env.hash, r);
    var written := AfterWrite(env.codec, files, key, body);
    PayloadWritten(env, files, key, body);
    forall k | 0 <= k < |asked| ensures Payload(env.codec, written, RequestKey(env.hash, asked[k])).Some? {
      WriteKeepsOthers(env.codec, files, key, body, RequestKey(env.hash, asked[k]));
    }
  }

  /** What a call does to the files and to what was asked. */
  lemma CallEffect(env: Env, s: State, request: Request, up: bool)
    requires s.waiting == []
    ensures var after, key := CallStep(env, s, request, up), RequestKey(env.hash, request);
      var read := AfterRead(env.codec, s.files, key);
      && after.waiting == []
      && (!Cacheable(env, request) ==> after.files == s.files && after.asked == s.asked)
      && (Cacheable(env, request) && (Payload(env.codec, s.files, key).Some? || !up) ==>
            after.files == read && after.asked == s.asked)
      && (Cacheable(env, request) && Payload(env.codec, s.files, key).None? && up ==>
            && after.files == AfterWrite(env.codec, read, key, env.provider.answer(request))
            && after.asked == s.asked + [request])
  {
    hide RequestKey, Payload, AfterRead, AfterWrite;
  }

  lemma CallKeepsOnce(env: Env, s: State, request: Request, up: bool)
    requires Faithful(env.codec) && Once(env, s)
    ensures Once(env, CallStep(env, s, request, up))
  {
    hide Faithful, CallStep, RequestKey, Payload, AfterRead, AfterWrite, AskedOnce;
    CallEffect(env, s, request, up);
    if Cacheable(env, request) {
      var key := RequestKey(env.hash, request);
      var files := AfterRead(env.codec, s.files, key);
      ReadKeepsAsked(env, s.files, s.asked, key);
      ReadKeepsPayloads(env.codec, s.files, key, key);
      if Payload(env.codec, s.files, key).None? && up {
        WriteKeepsAsked(env, files, s.asked, request, env.provider.answer(request));
      }
    }
  }

  /** Without damage and overlap the provider answers each key at most once. */
  lemma {:induction false} EachKeyOnce(env: Env, s: State, calls: seq<Call>)
    requires Faithful(env.codec) && Once(env, s)
    ensures Once(env, Calls(env, s, calls))
  {
    if calls != [] {
      var last := calls[|calls| - 1];
      EachKeyOnce(env, s, calls[..|calls| - 1]);
      CallKeepsOnce(env, Calls(env, s, calls[..|calls| - 1]), last.request, last.up);
    }
  }

  const NOTHING := State(map[], [], [], [])

  ghost predicate AskedFor(env: Env, asked: seq<Request>, key: string) {
    exists k :: 0 <= k < |asked| && RequestKey(env.hash, asked[k]) == key
  }

  /** Only the answers to what the provider was asked for are usable. */
  ghost predicate UsableIsAsked(env: Env, files: Files, asked: seq<Request>) {
    forall key :: Payload(env.codec, files, key).Some? ==> AskedFor(env, asked, key)
  }

  lemma AskedForMore(env: Env, asked: seq<Request>, r: Request, key: string)
    ensures AskedFor(env, asked, key) ==> AskedFor(env, asked + [r], key)
    ensures AskedFor(env, asked + [r], RequestKey(env.hash, r))
  {
    if AskedFor(env, asked, key) {
      var k :| 0 <= k < |asked| && RequestKey(env.hash, asked[k]) == key;
      assert (asked + [r])[k] == asked[k];
    }
    assert (asked + [r])[|asked|] == r;
  }

  /** A call keeps what has been asked for, and an accepted one has been asked for when the provider is up. */
  lemma CallAsks(env: Env, s: State, request: Request, up: bool, key: string)
    requires s.waiting == [] && UsableIsAsked(env, s.files, s.asked)
    ensures var after := CallStep(env, s, request, up);
      && after.waiting == []
      && (AskedFor(env, s.asked, key) ==> AskedFor(env, after.asked, key))
      && (Payload(env.codec, after.files, key).Some? ==> AskedFor(env, after.asked, key))
      && (Cacheable(env, request) && up ==> AskedFor(env, after.asked, RequestKey(env.hash, request)))
  {
    hide CallStep, RequestKey, Payload, AskedFor, AfterRead, AfterWrite, Cacheable;
    CallEffect(env, s, request, up);
    if Cacheable(env, request) {
      var requestKey := RequestKey(env.hash, request);
      ReadKeepsPayloads(env.codec, s.files, requestKey, key);
      AskedForMore(env, s.asked, request, key);
      if key != requestKey {
        WriteKeepsOthers(env.codec, AfterRead(env.codec, s.files, requestKey), requestKey,
          env.provider.answer(request), key);
      }
    }
  }

  lemma NothingUsable(env: Env)
    ensures UsableIsAsked(env, NOTHING.files, NOTHING.asked)
  {
  }

  /** From an empty cache, every key that was accepted while the provider was up has been asked for. */
  lemma {:induction false} AnsweredKeysAsked(env: Env, calls: seq<Call>)
    ensures var s := Calls(env, NOTHING, calls);
      && s.waiting == [] && UsableIsAsked(env, s.files, s.asked)
      && forall i :: 0 <= i < |calls| && calls[i].up && Cacheable(env, calls[i].request) ==>
           AskedFor(env, s.asked, RequestKey(env.hash, calls[i].request))
  {
    hide RequestKey, Payload, CallStep, Cacheable, AskedFor;
    NothingUsable(env);
    if calls != [] {
      var most, last := calls[..|calls| - 1], calls[|calls| - 1];
      AnsweredKeysAsked(env, most);
      var before := Calls(env, NOTHING, most);
      forall key ensures Payload(env.codec, Calls(env, NOTHING, calls).files, key).Some? ==>
                           AskedFor(env, Calls(env, NOTHING, calls).asked, key) {
        CallAsks(env, before, last.request, last.up, key);
      }
      forall i | 0 <= i < |calls| && calls[i].up && Cacheable(env, calls[i].request)
        ensures AskedFor(env, Calls(env, NOTHING, calls).asked, RequestKey(env.hash, calls[i].request))
      {
        CallAsks(env, before, last.request, last.up, RequestKey(env.hash, calls[i].request));
        assert i < |most| ==> most[i] == calls[i];
      }
      CallAsks(env, before, last.request, last.up, "");
    }
  }

  ghost predicate AskedExactlyOnce(env: Env, asked: seq<Request>, key: string) {
    exists k :: 0 <= k < |asked| && RequestKey(env.hash, asked[k]) == key
      && forall j :: 0 <= j < |asked| && j != k ==> RequestKey(env.hash, asked[j]) != key
  }

  /**
   * From an empty cache, without damage and overlap: every key accepted while the provider was up is
   * asked for exactly once.
   */
  lemma EachKeyExactlyOnce(env: Env, calls: seq<Call>, i: nat)
    requires Faithful(env.codec) && i < |calls| && calls[i].up && Cacheable(env, calls[i].request)
    ensures AskedExactlyOnce(env, Calls(env, NOTHING, calls).asked, RequestKey(env.hash, calls[i].request))
  {
    EachKeyOnce(env, NOTHING, calls);
    AnsweredKeysAsked(env, calls);
    var asked, key := Calls(env, NOTHING, calls).asked, RequestKey(env.hash, calls[i].request);
    var k :| 0 <= k < |asked| && RequestKey(env.hash, asked[k]) == key;
    forall j | 0 <= j < |asked| && j != k ensures RequestKey(env.hash, asked[j]) != key {
      assert RequestKey(env.hash, asked[if j < k then j else k]) != RequestKey(env.hash, asked[if j < k then k else j]);
    }
  }
}
