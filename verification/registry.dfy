/** The model registry: a memo of parsed files that must not be told from reading the file each time. */
module Registry {
  import opened Options

  type Path = string

  /** What `stat` tells a file's version by. */
  datatype Key = Key(path: Path, device: nat, inode: nat, mtime: int, size: nat)

  datatype Role = Role(name: string, provider: Option<string>, model: Option<string>)

  /** A decoded registry: the models of each provider, the roles in file order, and everything else as text. */
  datatype Data = Data(providers: map<string, set<string>>, roles: seq<Role>, rest: string)

  const EMPTY := Data(map[], [], "")

  datatype Loaded =
    | Ok(data: Data)
    | InvalidJson
    | UnknownProvider(role: string)
    | UnknownModel(role: string)
    | Unreadable

  type Decoder = string -> Option<Data>

  predicate ProviderKnown(data: Data, r: Role) {
    r.provider.Some? ==> r.provider.value in data.providers
  }

  predicate ModelKnown(data: Data, r: Role)
    requires ProviderKnown(data, r)
  {
    r.provider.Some? && r.model.Some? ==> r.model.value in data.providers[r.provider.value]
  }

  /** The first role that names something not declared decides. */
  function Checked(data: Data, n: nat): Loaded
    requires n <= |data.roles|
    decreases |data.roles| - n
  {
    if n == |data.roles| then Ok(data)
    else if !ProviderKnown(data, data.roles[n]) then UnknownProvider(data.roles[n].name)
    else if !ModelKnown(data, data.roles[n]) then UnknownModel(data.roles[n].name)
    else Checked(data, n + 1)
  }

  function Parse(decode: Decoder, text: string): Loaded {
    match decode(text)
    case None => InvalidJson
    case Some(data) => Checked(data, 0)
  }

  /** A role names no provider, or a declared one and, if it names a model, one of that provider's. */
  predicate Declared(data: Data, r: Role) {
    match (r.provider, r.model)
    case (None, _) => true
    case (Some(p), None) => p in data.providers
    case (Some(p), Some(m)) => p in data.providers && m in data.providers[p]
  }

  /** Role `i` is the first that names something not declared. */
  predicate FirstUndeclared(data: Data, i: nat) {
    && i < |data.roles| && !Declared(data, data.roles[i])
    && forall j | 0 <= j < i :: Declared(data, data.roles[j])
  }

  lemma {:induction false} CheckedFrom(data: Data, n: nat)
    requires n <= |data.roles|
    ensures var r := Checked(data, n);
            if r.Ok? then r.data == data && forall i | n <= i < |data.roles| :: Declared(data, data.roles[i])
            else
              exists i | n <= i < |data.roles| ::
                && !Declared(data, data.roles[i]) && (forall j | n <= j < i :: Declared(data, data.roles[j]))
                && r == RefusalOf(data, data.roles[i])
    decreases |data.roles| - n
  {
    if n < |data.roles| && Declared(data, data.roles[n]) {
      CheckedFrom(data, n + 1);
    }
  }

  function RefusalOf(data: Data, role: Role): Loaded {
    if role.provider.Some? && role.provider.value in data.providers then UnknownModel(role.name)
    else UnknownProvider(role.name)
  }

  /** A registry is accepted, as it stands, exactly when every role is declared; otherwise the refusal names the first
      role that is not, and whether its provider or its model is unknown. */
  lemma CheckedIff(data: Data)
    ensures var r := Checked(data, 0);
            && (r == Ok(data) <==> forall i | 0 <= i < |data.roles| :: Declared(data, data.roles[i]))
            && (r != Ok(data) ==>
                  exists i | 0 <= i < |data.roles| ::
                    FirstUndeclared(data, i) && r == RefusalOf(data, data.roles[i]))
  {
    hide Checked, Declared;
    CheckedFrom(data, 0);
    var r := Checked(data, 0);
    if !r.Ok? {
      var i :| && 0 <= i < |data.roles| && !Declared(data, data.roles[i])
               && (forall j | 0 <= j < i :: Declared(data, data.roles[j])) && r == RefusalOf(data, data.roles[i]);
      assert FirstUndeclared(data, i);
    }
  }

  /** What a load sees of the disk: the version at `stat`, whether the file is there afterwards, and what reading it
      gives. The three may fall on different versions. */
  datatype Sight = Sight(version: Option<Key>, there: bool, text: Option<string>)

  type Memo = map<Key, Data>

  function Without(m: Memo, path: Path): Memo {
    map k | k in m && k.path != path :: m[k]
  }

  function AfterLoad(m: Memo, decode: Decoder, path: Path, s: Sight): (Memo, Loaded) {
    if s.version.Some? && s.version.value in m then (m, Ok(m[s.version.value]))
    else if !s.there then (Without(m, path), Ok(EMPTY))
    else if s.text.None? then (m, Unreadable)
    else
      var r := Parse(decode, s.text.value);
      if r.Ok? && s.version.Some? then (Without(m, s.version.value.path)[s.version.value := r.data], r) else (m, r)
  }

  /** The models of one provider in memory: a part of a registry that may be changed on its own. */
  class Models {
    var names: set<string>

    constructor (n: set<string>)
      ensures names == n
    {
      names := n;
    }
  }

  /** A parsed registry in memory, which its holder may change in place, down to its parts. */
  class Doc {
    var providers: map<string, Models>
    var roles: seq<Role>
    var rest: string
    ghost const parts: set<Models>

    ghost predicate Valid()
      reads this
    {
      forall p | p in providers :: providers[p] in parts
    }

    function Value(): Data
      requires Valid()
      reads this, parts
    {
      Data(map p | p in providers :: providers[p].names, roles, rest)
    }

    constructor (built: map<string, Models>, r: seq<Role>, t: string)
      ensures providers == built && roles == r && rest == t && parts == built.Values && Valid()
    {
      providers, roles, rest, parts := built, r, t, built.Values;
    }

    /** A deep copy: no part of it is a part of this one. */
    method DeepCopy() returns (copy: Doc)
      requires Valid()
      ensures fresh(copy) && fresh(copy.parts) && copy.Valid() && copy.Value() == Value()
    {
      var built: map<string, Models> := map[];
      var todo := providers.Keys;
      while todo != {}
        invariant todo !! built.Keys && todo + built.Keys == providers.Keys
        invariant forall p | p in built :: fresh(built[p]) && built[p].names == providers[p].names
      {
        var p :| p in todo;
        var models := new Models(providers[p].names);
        built := built[p := models];
        todo := todo - {p};
      }
      copy := new Doc(built, roles, rest);
      assert copy.Value() == Value();
    }
  }

  /** What the decoder builds in memory for a document. */
  method Materialize(data: Data) returns (doc: Doc)
    ensures fresh(doc) && fresh(doc.parts) && doc.Valid() && doc.Value() == data
  {
    var built: map<string, Models> := map[];
    var todo := data.providers.Keys;
    while todo != {}
      invariant todo !! built.Keys && todo + built.Keys == data.providers.Keys
      invariant forall p | p in built :: fresh(built[p]) && built[p].names == data.providers[p]
    {
      var p :| p in todo;
      var models := new Models(data.providers[p]);
      built := built[p := models];
      todo := todo - {p};
    }
    doc := new Doc(built, data.roles, data.rest);
    assert doc.Value() == data;
  }

  class Cache {
    var memo: map<Key, Doc>

    ghost function Docs(): set<Doc>
      reads this
    {
      memo.Values
    }

    /** The parts of the documents in the memo. */
    ghost function Parts(): set<Models>
      reads this
    {
      set d, m | d in memo.Values && m in d.parts :: m
    }

    ghost predicate Valid()
      reads this, Docs()
    {
      forall k | k in memo :: memo[k].Valid()
    }

    ghost function Contents(): Memo
      requires Valid()
      reads this, Docs(), Parts()
    {
      map k | k in memo :: memo[k].Value()
    }

    constructor ()
      ensures memo == map[] && Valid()
    {
      memo := map[];
    }

    method Reset()
      modifies this
      ensures memo == map[]
    {
      memo := map[];
    }

    method Check(data: Data) returns (r: Loaded)
      ensures r == Checked(data, 0)
    {
      var n := 0;
      while n < |data.roles|
        invariant 0 <= n <= |data.roles| && Checked(data, 0) == Checked(data, n)
      {
        var role := data.roles[n];
        if role.provider.Some? {
          if role.provider.value !in data.providers {
            return UnknownProvider(role.name);
          }
          if role.model.Some? && role.model.value !in data.providers[role.provider.value] {
            return UnknownModel(role.name);
          }
        }
        n := n + 1;
      }
      return Ok(data);
    }

    method Read(decode: Decoder, text: string) returns (r: Loaded)
      ensures r == Parse(decode, text)
    {
      var decoded := decode(text);
      if decoded.None? {
        return InvalidJson;
      }
      r := Check(decoded.value);
    }

    method Forget(path: Path)
      requires Valid()
      modifies this
      ensures Valid() && Contents() == Without(old(Contents()), path)
      ensures Docs() <= old(Docs()) && Parts() <= old(Parts())
    {
      memo := map k | k in memo && k.path != path :: memo[k];
    }

    /** At most one version of a file is kept. */
    method Store(key: Key, master: Doc)
      requires Valid() && master.Valid()
      modifies this
      ensures Valid() && Contents() == Without(old(Contents()), key.path)[key := master.Value()]
      ensures Docs() <= old(Docs()) + {master} && Parts() <= old(Parts()) + master.parts
    {
      Forget(key.path);
      memo := memo[key := master];
    }

    /** Puts away what was parsed, if the file has a version, and hands out a copy of it. */
    method Remember(version: Option<Key>, data: Data) returns (doc: Doc)
      requires Valid()
      modifies this
      ensures Valid() && doc.Valid() && doc.Value() == data
      ensures Contents() == match version case None => old(Contents())
                                          case Some(key) => Without(old(Contents()), key.path)[key := data]
      ensures fresh(doc) && fresh(doc.parts) && doc !in Docs() && doc.parts !! Parts()
      ensures fresh(Docs() - old(Docs())) && fresh(Parts() - old(Parts()))
    {
      hide Without;
      var master := Materialize(data);
      assert Contents() == old(Contents());
      if version.Some? {
        Store(version.value, master);
      }
      ghost var contents := Contents();
      doc := master.DeepCopy();
      assert Contents() == contents;
    }

    /** A copy of the document the memo has for a version. */
    method Recall(key: Key) returns (doc: Doc)
      requires Valid() && key in memo
      ensures Valid() && Contents() == old(Contents())
      ensures doc.Valid() && doc.Value() == Contents()[key]
      ensures fresh(doc) && fresh(doc.parts) && doc !in Docs() && doc.parts !! Parts()
    {
      doc := memo[key].DeepCopy();
      assert Contents() == old(Contents());
    }

    /** A document that the memo does not have. */
    method Hand(data: Data) returns (doc: Doc)
      requires Valid()
      ensures Valid() && Contents() == old(Contents())
      ensures doc.Valid() && doc.Value() == data
      ensures fresh(doc) && fresh(doc.parts) && doc !in Docs() && doc.parts !! Parts()
    {
      doc := Materialize(data);
      assert Contents() == old(Contents());
    }

    /** The load of a version that is not in the memo. */
    method Fetch(decode: Decoder, path: Path, s: Sight) returns (r: Loaded, doc: Doc)
      requires Valid() && !(s.version.Some? && s.version.value in memo)
      modifies this
      ensures Valid() && (Contents(), r) == AfterLoad(old(Contents()), decode, path, s)
      ensures fresh(doc) && fresh(doc.parts) && doc !in Docs() && doc.parts !! Parts()
      ensures doc.Valid() && (r.Ok? ==> doc.Value() == r.data)
      ensures fresh(Docs() - old(Docs())) && fresh(Parts() - old(Parts()))
    {
      hide Checked, Without, Parse;
      if !s.there {
        Forget(path);
        doc := Hand(EMPTY);
        return Ok(EMPTY), doc;
      }
      r := Unreadable;
      if s.text.Some? {
        r := Read(decode, s.text.value);
      }
      if r.Ok? {
        doc := Remember(s.version, r.data);
      } else {
        doc := Hand(EMPTY);
      }
    }

    /** Every registry handed out is a deep copy of its own: neither a document of the memo nor a part of one is ever
        given away. */
    method Load(decode: Decoder, path: Path, s: Sight) returns (r: Loaded, doc: Doc)
      requires Valid()
      modifies this
      ensures Valid() && (Contents(), r) == AfterLoad(old(Contents()), decode, path, s)
      ensures fresh(doc) && fresh(doc.parts) && doc !in Docs() && doc.parts !! Parts()
      ensures doc.Valid() && (r.Ok? ==> doc.Value() == r.data)
      ensures fresh(Docs() - old(Docs())) && fresh(Parts() - old(Parts()))
    {
      hide Checked, Without, Parse;
      if s.version.Some? && s.version.value in memo {
        doc := Recall(s.version.value);
        r := Ok(doc.Value());
      } else {
        r, doc := Fetch(decode, path, s);
      }
    }
  }

  // ---------------------------------------------------------------------------------------------
  // The memo against reading the file
  // ---------------------------------------------------------------------------------------------

  /** The content every version of every file has: equal versions mean equal content. */
  type Versions = Key -> string

  ghost predicate Agrees(m: Memo, decode: Decoder, v: Versions) {
    forall k | k in m :: Parse(decode, v(k)) == Ok(m[k])
  }

  predicate OnePerPath(m: Memo) {
    forall k, l | k in m && l in m && k.path == l.path :: k == l
  }

  lemma LoadKeepsOnePerPath(m: Memo, decode: Decoder, path: Path, s: Sight)
    requires OnePerPath(m)
    ensures OnePerPath(AfterLoad(m, decode, path, s).0)
  {
    hide Parse;
  }

  /** What a load that sees one state of the disk sees of a file. */
  datatype File = File(key: Key, text: string)

  function SightOf(f: Option<File>): Sight {
    match f
    case None => Sight(None, false, None)
    case Some(file) => Sight(Some(file.key), true, Some(file.text))
  }

  function Uncached(decode: Decoder, f: Option<File>): Loaded {
    match f
    case None => Ok(EMPTY)
    case Some(file) => Parse(decode, file.text)
  }

  /** A load that sees one state of the disk answers as if there were no memo, and keeps the memo right. */
  lemma LoadRefines(m: Memo, decode: Decoder, v: Versions, path: Path, f: Option<File>)
    requires Agrees(m, decode, v) && (f.Some? ==> v(f.value.key) == f.value.text)
    ensures AfterLoad(m, decode, path, SightOf(f)).1 == Uncached(decode, f)
    ensures Agrees(AfterLoad(m, decode, path, SightOf(f)).0, decode, v)
  {
    hide Parse;
  }

  /** When the file is rewritten between `stat` and the reading, the memo stays right exactly when nothing is stored
      (it was a hit, or the reading failed, or the file had no version) or the two versions parse alike. */
  lemma TornLoadKeepsIff(m: Memo, decode: Decoder, v: Versions, path: Path, s: Sight)
    requires Agrees(m, decode, v)
    ensures Agrees(AfterLoad(m, decode, path, s).0, decode, v)
            <==> (s.version.Some? && s.version.value !in m && s.there && s.text.Some? && Parse(decode, s.text.value).Ok?
                  ==> Parse(decode, v(s.version.value)) == Parse(decode, s.text.value))
  {
    hide Parse;
    var r := AfterLoad(m, decode, path, s);
    if s.version.Some? && s.version.value !in m && s.there && s.text.Some? && Parse(decode, s.text.value).Ok? {
      assert s.version.value in r.0 && Ok(r.0[s.version.value]) == Parse(decode, s.text.value);
    }
  }

  // ---------------------------------------------------------------------------------------------
  // Whole programs over the registry
  // ---------------------------------------------------------------------------------------------

  /** What a holder may do to its registry in place: to the document itself, or deep inside it. */
  datatype Change =
    | Reword(roles: seq<Role>, rest: string)
    | Remove(provider: string)
    | Restock(provider: string, names: set<string>)

  datatype Op =
    | Write(path: Path, file: File)
    | Delete(path: Path)
    | LoadFrom(path: Path)
    | Mutate(which: nat, change: Change)
    | ResetMemo

  predicate Honest(ops: seq<Op>, v: Versions) {
    forall i | 0 <= i < |ops| && ops[i].Write? ::
      ops[i].file.key.path == ops[i].path && v(ops[i].file.key) == ops[i].file.text
  }

  function Lookup(disk: map<Path, File>, path: Path): Option<File> {
    if path in disk then Some(disk[path]) else None
  }

  function DiskAfter(disk: map<Path, File>, op: Op): map<Path, File> {
    match op
    case Write(path, file) => disk[path := file]
    case Delete(path) => disk - {path}
    case _ => disk
  }

  /** What the loads of a program answer when there is no memo at all. */
  function Answers(decode: Decoder, disk: map<Path, File>, ops: seq<Op>): seq<Loaded>
    decreases |ops|
  {
    if ops == [] then []
    else
      (if ops[0].LoadFrom? then [Uncached(decode, Lookup(disk, ops[0].path))] else [])
      + Answers(decode, DiskAfter(disk, ops[0]), ops[1..])
  }

  ghost predicate DiskHonest(disk: map<Path, File>, v: Versions) {
    forall p | p in disk :: v(disk[p].key) == disk[p].text
  }

  /** The parts of the documents given out. */
  ghost function PartsOf(given: seq<Doc>): set<Models> {
    set d, m | d in given && m in d.parts :: m
  }

  /** The documents given out share nothing with the memo, not even a part. */
  ghost predicate Apart(cache: Cache, given: seq<Doc>)
    reads cache, given
  {
    && (forall d | d in given :: d !in cache.Docs() && d.Valid())
    && PartsOf(given) !! cache.Parts()
  }

  /** The document says what the change made of it. */
  ghost predicate Shows(doc: Doc, change: Change)
    reads doc, doc.providers.Values
  {
    match change
    case Reword(roles, rest) => doc.roles == roles && doc.rest == rest
    case Remove(provider) => provider !in doc.providers
    case Restock(provider, names) => provider in doc.providers ==> doc.providers[provider].names == names
  }

  method ChangeDoc(doc: Doc, change: Change)
    requires doc.Valid()
    modifies doc, doc.parts
    ensures doc.Valid() && Shows(doc, change)
  {
    match change
    case Reword(roles, rest) => doc.roles, doc.rest := roles, rest;
    case Remove(provider) => doc.providers := doc.providers - {provider};
    case Restock(provider, names) =>
      if provider in doc.providers {
        doc.providers[provider].names := names;
      }
  }

  /** Everything the program has in memory. */
  ghost function Owned(cache: Cache, given: seq<Doc>): set<object>
    reads cache
  {
    (set d | d in given :: d as object) + PartsOf(given) + {cache} + cache.Docs() + cache.Parts()
  }

  /** One more document is given out. */
  method Give(decode: Decoder, ghost v: Versions, cache: Cache, path: Path, f: Option<File>, given: seq<Doc>)
    returns (given1: seq<Doc>, r: Loaded)
    requires cache.Valid() && Agrees(cache.Contents(), decode, v) && (f.Some? ==> v(f.value.key) == f.value.text)
    requires Apart(cache, given)
    modifies cache
    ensures r == Uncached(decode, f)
    ensures |given1| == |given| + 1 && given1[..|given|] == given
    ensures given1[|given|].Valid() && (r.Ok? ==> given1[|given|].Value() == r.data)
    ensures cache.Valid() && Agrees(cache.Contents(), decode, v) && Apart(cache, given1)
    ensures forall o | o in Owned(cache, given1) :: o in old(Owned(cache, given)) || fresh(o)
  {
    hide AfterLoad, Uncached, Parse, Agrees;
    LoadRefines(cache.Contents(), decode, v, path, f);
    var doc;
    r, doc := cache.Load(decode, path, SightOf(f));
    given1 := given + [doc];
    assert PartsOf(given1) == PartsOf(given) + doc.parts;
  }

  /** A holder changes a document it was given; the memo does not notice. */
  method Alter(cache: Cache, given: seq<Doc>, which: nat, change: Change)
    requires cache.Valid() && Apart(cache, given) && which < |given|
    modifies Owned(cache, given)
    ensures cache.Valid() && cache.Contents() == old(cache.Contents()) && Apart(cache, given)
    ensures Shows(given[which], change) && Owned(cache, given) == old(Owned(cache, given))
  {
    hide Shows;
    assert given[which] in given;
    ChangeDoc(given[which], change);
    assert cache.Contents() == old(cache.Contents());
  }

  method Execute(decode: Decoder, ghost v: Versions, cache: Cache, disk: map<Path, File>, given: seq<Doc>, op: Op)
    returns (disk1: map<Path, File>, given1: seq<Doc>, answer: seq<Loaded>)
    requires cache.Valid() && Agrees(cache.Contents(), decode, v) && DiskHonest(disk, v) && Honest([op], v)
    requires Apart(cache, given)
    modifies Owned(cache, given)
    ensures disk1 == DiskAfter(disk, op) && DiskHonest(disk1, v)
    ensures answer == if op.LoadFrom? then [Uncached(decode, Lookup(disk, op.path))] else []
    ensures if op.LoadFrom? then |given1| == |given| + 1 && given1[..|given|] == given else given1 == given
    ensures op.Mutate? && op.which < |given| ==> Shows(given[op.which], op.change)
    ensures cache.Valid() && Agrees(cache.Contents(), decode, v) && Apart(cache, given1)
    ensures forall o | o in Owned(cache, given1) :: o in old(Owned(cache, given)) || fresh(o)
  {
    hide Uncached, Parse, AfterLoad, Shows;
    disk1, given1, answer := DiskAfter(disk, op), given, [];
    match op
    case LoadFrom(path) =>
      var r;
      given1, r := Give(decode, v, cache, path, Lookup(disk, path), given);
      answer := [r];
    case Mutate(which, change) =>
      if which < |given| {
        Alter(cache, given, which, change);
      }
    case ResetMemo => cache.Reset();
    case Write(path, file) => assert [op][0] == op;
    case Delete(path) =>
  }

  /** Whatever a program does, rewriting files, deleting them, loading them from any path, changing the registries it
      was given in place and down to their parts, resetting the memo: its loads answer as if every one of them had read
      the file. */
  method RunProgram(decode: Decoder, ghost v: Versions, ops: seq<Op>) returns (answers: seq<Loaded>)
    requires Honest(ops, v)
    ensures answers == Answers(decode, map[], ops)
  {
    hide Agrees, DiskHonest, DiskAfter, Parse, Uncached, Owned, Apart, Lookup;
    var cache := new Cache();
    var disk: map<Path, File> := map[];
    var given: seq<Doc> := [];
    answers := [];
    NothingLoaded(cache, decode, v);
    for k := 0 to |ops|
      invariant answers + Answers(decode, disk, ops[k..]) == Answers(decode, map[], ops)
      invariant forall o | o in Owned(cache, given) :: fresh(o)
      invariant cache.Valid() && Agrees(cache.Contents(), decode, v) && DiskHonest(disk, v) && Apart(cache, given)
    {
      var op := ops[k];
      assert ops[k..][0] == op && ops[k..][1..] == ops[k + 1..];
      assert [op][0] == op;
      var answer;
      disk, given, answer := Execute(decode, v, cache, disk, given, op);
      answers := answers + answer;
    }
  }

  lemma NothingLoaded(cache: Cache, decode: Decoder, v: Versions)
    requires cache.memo == map[] && cache.Valid()
    ensures Agrees(cache.Contents(), decode, v) && DiskHonest(map[], v)
    ensures Apart(cache, []) && Owned(cache, []) == {cache}
  {
  }
}
