// The knowledge-graph state of runners/kg/adapter.py as a value: what _merge_aliases
// reads, and the alias rules stated as relations over it.

module KgModel {

  import opened Common

  // An entity id is sixteen lower-case hex digits. Strings of one width compare like the
  // numbers they spell, so sorted() on two ids compares those numbers.
  datatype Eid = Slug(number: int)

  // A key doc_id:speech_id:chunk_id of the chunk metadata.
  type Chunk = string

  datatype EntityType = Person | Bucket(title: string) | Other

  // The string functions the fold depends on, left open.
  datatype Text = Text(
    lower: string -> string,               // str.lower
    words: string -> seq<string>,          // str.split()
    slug: string -> Eid,                   // sha1 of the stripped, lower-cased name
    clean: string -> string,               // clean_name
    isJunk: string -> bool,                // is_junk
    nodeType: (string, string) -> EntityType,  // norm_type, then the generic-noun demotion
    describe: string -> string)            // first fragment, clean_desc, truncate_desc

  // Lower-casing neither joins nor splits words.
  ghost predicate TextLaws(t: Text)
  {
    forall a :: |t.words(t.lower(a))| == |t.words(a)|
  }

  // One relation row of the fold.
  datatype Rel = Rel(source: Eid, target: Eid, description: string, chunk: Chunk, doc: string)

  type RelKey = (Eid, Eid, Chunk)

  function Key(r: Rel): RelKey
  {
    (r.source, r.target, r.chunk)
  }

  function Keys(rows: seq<Rel>): set<RelKey>
  {
    set r <- rows :: Key(r)
  }

  ghost predicate UniqueKeys(rows: seq<Rel>)
  {
    forall i, j :: 0 <= i < j < |rows| ==> Key(rows[i]) != Key(rows[j])
  }

  // sorted((a, b))
  function Sorted(a: Eid, b: Eid): (Eid, Eid)
  {
    if a.number <= b.number then (a, b) else (b, a)
  }

  // ck.split(":")[0]
  function DocOf(ck: Chunk): string
  {
    if ck == "" || ck[0] == ':' then "" else [ck[0]] + DocOf(ck[1..])
  }

  // The dictionaries and relation rows the fold and the merge share.
  datatype Graph = Graph(
    names: map<Eid, string>,
    types: map<Eid, EntityType>,
    chunks: map<Eid, set<Chunk>>,
    rels: seq<Rel>)
  {
    function Mentions(e: Eid): set<Chunk>
    {
      if e in chunks then chunks[e] else {}
    }

    // A row in canonical order whose chunk both ends mention.
    predicate RowFits(r: Rel)
    {
      && r.source.number <= r.target.number
      && r.source in names && r.target in names
      && r.chunk in Mentions(r.source) && r.chunk in Mentions(r.target)
      && r.doc == DocOf(r.chunk)
    }

    // What every stage keeps: each entity has a name and a type, every mention is of a known
    // chunk, and every relation row fits and is the only one of its pair and chunk.
    ghost predicate Sound(meta: set<Chunk>)
    {
      && types.Keys == names.Keys
      && chunks.Keys <= names.Keys
      && (forall e <- chunks :: chunks[e] <= meta)
      && (forall r <- rels :: RowFits(r))
      && UniqueKeys(rels)
    }
  }

  const EMPTY := Graph(map[], map[], map[], [])

  const SUFFIXES: seq<string> := ["arna", "erna", "orna", "en", "et", "na"]
  const MIN_BASE := 4

  predicate EndsWith(s: string, suffix: string)
  {
    |suffix| <= |s| && s[|s| - |suffix|..] == suffix
  }

  function Stem(low: string, suffix: string): string
  {
    if EndsWith(low, suffix) then low[..|low| - |suffix|] else ""
  }

  // The base form of the first suffix, from position i on, whose stem is long enough and is
  // itself a known name.
  function FirstBase(low: string, known: set<string>, i: nat): (b: Option<string>)
    requires i <= |SUFFIXES|
    ensures b.Some? ==> b.value in known && MIN_BASE <= |b.value| < |low| && b.value == low[..|b.value|]
    decreases |SUFFIXES| - i
  {
    if i == |SUFFIXES| then None
    else
      var base := Stem(low, SUFFIXES[i]);
      if MIN_BASE <= |base| && base in known then Some(base)
      else FirstBase(low, known, i + 1)
  }

  // The suffix groups as a forest: parent maps a variant to its base form, whose name is
  // shorter. A group is a base form with all its variants, so an id can be in two groups:
  // its own, and that of its base form.
  datatype Groups = Groups(length: map<Eid, nat>, parent: map<Eid, Eid>) {
    ghost predicate Valid()
    {
      && parent.Keys <= length.Keys
      && (forall e <- parent :: parent[e] in length && length[parent[e]] < length[e])
    }

    predicate IsChild(p: Eid, e: Eid)
    {
      e in parent && parent[e] == p
    }

    ghost predicate IsBase(p: Eid)
    {
      exists c :: IsChild(p, c)
    }

    ghost predicate InGroup(p: Eid, e: Eid)
    {
      IsBase(p) && (e == p || IsChild(p, e))
    }

    // win picks one most-mentioned member of every group; ties are broken in any way.
    ghost predicate Winners(size: map<Eid, nat>, win: map<Eid, Eid>)
    {
      && (forall p :: p in win <==> IsBase(p))
      && (forall p <- win :: InGroup(p, win[p]))
      && (forall p, e :: p in win && InGroup(p, e) && e in size && win[p] in size ==> size[e] <= size[win[p]])
    }

    ghost predicate Loses(win: map<Eid, Eid>, p: Eid, e: Eid)
    {
      p in win && InGroup(p, e) && e != win[p]
    }

    // A loser points at the winner of one of the groups it lost in: the last one processed.
    ghost predicate GroupAlias(win: map<Eid, Eid>, alias: map<Eid, Eid>)
    {
      && (forall p <- win :: InGroup(p, win[p]))
      && (forall e <- length :: e in alias <==> exists p :: Loses(win, p, e))
      && (forall e <- length | e in alias :: exists p :: Loses(win, p, e) && alias[e] == win[p])
    }
  }

  // ent_name, ent_type and ent_chunks at the start of the alias merge, with the by_lower index
  // over them. Missing keys of the chunk dictionary read as the empty set, as in a defaultdict.
  // Two ids may carry names that differ only in case; by_lower then holds either of them.
  datatype Snapshot = Snapshot(
    text: Text,
    names: map<Eid, string>,
    types: map<Eid, EntityType>,
    chunks: map<Eid, set<Chunk>>,
    byLower: map<string, Eid>)
  {
    ghost predicate Valid()
    {
      && TextLaws(text)
      && (forall e <- names :: Low(e) in byLower)
      && (forall low <- byLower :: byLower[low] in names && Low(byLower[low]) == low)
    }

    function Low(e: Eid): string
      requires e in names
    {
      text.lower(names[e])
    }

    predicate IsPerson(e: Eid)
    {
      e in types && types[e] == Person
    }

    function Mentions(e: Eid): set<Chunk>
    {
      if e in chunks then chunks[e] else {}
    }

    // The entity whose name is e's name without a definite or plural suffix.
    function Parent(e: Eid): (p: Option<Eid>)
      requires Valid() && e in names
      ensures p.Some? ==> p.value in names && |Low(p.value)| < |Low(e)| && !IsPerson(p.value) && !IsPerson(e)
    {
      if IsPerson(e) then None
      else
        match FirstBase(Low(e), byLower.Keys, 0)
        case None => None
        case Some(base) =>
          var other := byLower[base];
          if other != e && !IsPerson(other) then Some(other) else None
    }

    ghost function SuffixGroups(): (g: Groups)
      requires Valid()
      ensures g.Valid()
    {
      Groups(
        map e | e in names && !IsPerson(e) :: |Low(e)|,
        map e | e in names && Parent(e).Some? :: Parent(e).value)
    }

    function Sizes(): map<Eid, nat>
    {
      map e <- names :: |Mentions(e)|
    }

    // Multi-word person names containing the single word of e's name.
    ghost predicate Candidate(e: Eid, m: Eid)
      requires e in names && |text.words(Low(e))| == 1
    {
      && m in names && m != e && IsPerson(m)
      && 1 < |text.words(names[m])|
      && text.words(Low(e))[0] in text.words(Low(m))
    }

    ghost predicate OnlyCandidate(e: Eid, m: Eid)
      requires e in names && |text.words(Low(e))| == 1
    {
      Candidate(e, m) && forall o :: Candidate(e, o) ==> o == m
    }

    // A person points at the only longer name that contains it, when there is exactly one.
    ghost predicate PersonAlias(alias: map<Eid, Eid>)
    {
      forall e <- names | IsPerson(e) ::
        && (e in alias <==> |text.words(Low(e))| == 1 && exists m :: OnlyCandidate(e, m))
        && (e in alias ==> OnlyCandidate(e, alias[e]))
    }

    // What the finished alias dictionary is.
    ghost predicate AliasMap(win: map<Eid, Eid>, alias: map<Eid, Eid>)
      requires Valid()
    {
      && alias.Keys <= names.Keys
      && SuffixGroups().Winners(Sizes(), win)
      && SuffixGroups().GroupAlias(win, alias)
      && PersonAlias(alias)
    }
  }
}
