// Per-subject documents on a string-keyed state store: the keys, and the store as a refinement of
// a map from (subject, document) to the stored record. Requests can fail before or after they take
// effect, and rows can be edited by hand.

module UserState {

  import opened Common
  import opened Base64Url

  // A subject, as its UTF-8 bytes.
  type Subject = seq<Byte>

  datatype Document = WorkflowGraph | SavedViews

  datatype Owner = Owner(subject: Subject, document: Document)

  datatype Stored<V> = Stored(owner: Owner, updatedAt: int, value: V)

  // A row of the state store: a record, bytes that no longer fit its schema, or no bytes at all.
  datatype Row<V> = Readable(stored: Stored<V>) | Unreadable | Empty

  // How one request to the sidecar ends: answered, or failed before or after it took effect.
  datatype Reply = Answered | FailedBefore | FailedAfter

  datatype Answer<V> = Absent | Found(stored: Stored<V>) | ValueError | Unavailable | SchemaDrift | OwnerMismatch

  datatype Write = Written | WriteRefused | WriteUnavailable

  const KEY_PREFIX: string := "user-state:"

  function DocumentName(d: Document): string
  {
    match d
    case WorkflowGraph => "workflow-graph"
    case SavedViews => "saved-views"
  }

  // f"{KEY_PREFIX}:{encode_subject(subject)}:{document.value}"
  function Key(o: Owner): string
  {
    KEY_PREFIX + (EncodeSubject(o.subject) + ([':'] + DocumentName(o.document)))
  }

  predicate HasSeparator(key: string)
  {
    exists i :: 0 <= i && i + 1 < |key| && key[i] == '|' && key[i + 1] == '|'
  }

  lemma SeparatorIs(key: string)
    ensures HasSeparator(key) <==> exists a, b :: key == a + "||" + b
  {
    if i :| 0 <= i && i + 1 < |key| && key[i] == '|' && key[i + 1] == '|' {
      assert key == key[..i] + "||" + key[i + 2..];
    }
    if a, b :| key == a + "||" + b {
      assert key[|a|] == '|' && key[|a| + 1] == '|';
    }
  }

  // state_key: None stands for its ValueError.
  function StateKey(blank: Subject -> bool, o: Owner): Option<string>
  {
    if blank(o.subject) then None
    else if HasSeparator(Key(o)) then None
    else Some(Key(o))
  }

  lemma NamesAreFree(d: Document)
    ensures Free(DocumentName(d), '|') && Free(DocumentName(d), ':')
    ensures Free(KEY_PREFIX, '|')
  {
  }

  lemma NamesDiffer(d: Document, e: Document)
    ensures DocumentName(d) == DocumentName(e) ==> d == e
  {
  }

  lemma EncodedIsFree(subject: Subject)
    ensures Free(EncodeSubject(subject), '|') && Free(EncodeSubject(subject), ':')
  {
    hide EncodeSubject, IsSymbol;
    EncodedIsSymbols(subject);
    NotSymbols();
  }

  // The guard that outlives the encoding choice never fires: a key is refused only for a blank
  // subject.
  lemma KeysNeverHoldTheSeparator(blank: Subject -> bool, o: Owner)
    ensures !HasSeparator(Key(o))
    ensures StateKey(blank, o) == if blank(o.subject) then None else Some(Key(o))
  {
    hide EncodeSubject, DocumentName;
    NamesAreFree(o.document);
    EncodedIsFree(o.subject);
    var name := DocumentName(o.document);
  }

  lemma SamePrefix(p: string, s: string, t: string)
    requires p + s == p + t
    ensures s == t
  {
    assert (p + s)[|p|..] == s && (p + t)[|p|..] == t;
  }

  // Text before the first colon, and text after it.
  lemma FirstColon(s: string, t: string, x: string, y: string)
    requires Free(s, ':') && Free(t, ':') && s + ([':'] + x) == t + ([':'] + y)
    ensures s == t && x == y
  {
    var whole := s + ([':'] + x);
    assert whole[|s|] == ':' && whole[|t|] == ':';
    assert forall i :: 0 <= i < |s| ==> whole[i] == s[i];
    assert forall i :: 0 <= i < |t| ==> whole[i] == t[i];
    assert s == whole[..|s|] && t == whole[..|t|];
    assert x == whole[|s| + 1..] && y == whole[|t| + 1..];
  }

  lemma KeysAreInjective(o: Owner, p: Owner)
    requires Key(o) == Key(p)
    ensures o == p
  {
    hide EncodeSubject, DocumentName;
    NamesDiffer(o.document, p.document);
    EncodedIsFree(o.subject);
    EncodedIsFree(p.subject);
    var x := EncodeSubject(o.subject) + ([':'] + DocumentName(o.document));
    var y := EncodeSubject(p.subject) + ([':'] + DocumentName(p.document));
    SamePrefix(KEY_PREFIX, x, y);
    FirstColon(EncodeSubject(o.subject), EncodeSubject(p.subject), DocumentName(o.document), DocumentName(p.document));
    RoundTrip(o.subject);
    RoundTrip(p.subject);
  }

  // What get answers from whatever rows the store holds.
  function Read<V>(rows: map<string, Row<V>>, key: string, o: Owner): Answer<V>
  {
    if key !in rows || rows[key].Empty? then Absent
    else if rows[key].Unreadable? then SchemaDrift
    else if rows[key].stored.owner.subject != o.subject then OwnerMismatch
    else Found(rows[key].stored)
  }

  // The rows are exactly the documents, each under its owner's key.
  ghost predicate Holds<V>(rows: map<string, Row<V>>, documents: map<Owner, Stored<V>>)
  {
    && (forall o :: o in documents ==>
       documents[o].owner == o && Key(o) in rows && rows[Key(o)] == Readable(documents[o]))
    && (forall k :: k in rows ==> exists o :: o in documents && Key(o) == k)
  }

  // Reading is the map lookup: neither the schema branch nor the owner branch can be reached.
  lemma ReadIsLookup<V>(rows: map<string, Row<V>>, documents: map<Owner, Stored<V>>, o: Owner)
    requires Holds(rows, documents)
    ensures Read(rows, Key(o), o) == if o in documents then Found(documents[o]) else Absent
  {
    hide Key;
    if Key(o) in rows {
      var p :| p in documents && Key(p) == Key(o);
      KeysAreInjective(o, p);
    }
  }

  lemma WriteIsUpdate<V>(rows: map<string, Row<V>>, documents: map<Owner, Stored<V>>, o: Owner, s: Stored<V>)
    requires Holds(rows, documents) && s.owner == o
    ensures Holds(rows[Key(o) := Readable(s)], documents[o := s])
  {
    hide Key;
    var after, changed := rows[Key(o) := Readable(s)], documents[o := s];
    forall p | p in changed ensures changed[p].owner == p && Key(p) in after && after[Key(p)] == Readable(changed[p]) {
      if Key(p) == Key(o) {
        KeysAreInjective(p, o);
      }
    }
    forall k | k in after ensures exists p :: p in changed && Key(p) == k {
      if k == Key(o) {
        assert o in changed;
      } else {
        var p :| p in documents && Key(p) == k;
        assert p in changed;
      }
    }
  }

  lemma DropIsRemoval<V>(rows: map<string, Row<V>>, documents: map<Owner, Stored<V>>, o: Owner)
    requires Holds(rows, documents)
    ensures Holds(rows - {Key(o)}, documents - {o})
  {
    hide Key;
    var after, changed := rows - {Key(o)}, documents - {o};
    forall p | p in changed ensures changed[p].owner == p && Key(p) in after && after[Key(p)] == Readable(changed[p]) {
      if Key(p) == Key(o) {
        KeysAreInjective(p, o);
      }
    }
    forall k | k in after ensures exists p :: p in changed && Key(p) == k {
      var p :| p in documents && Key(p) == k;
      assert p in changed;
    }
  }

  // A row edited by hand, whatever its key and its new bytes, disturbs one owner at most. That owner
  // is told that nothing is there exactly when no byte is left.
  lemma EditedRowIsContained<V>(rows: map<string, Row<V>>, documents: map<Owner, Stored<V>>, key: string, row: Row<V>)
    requires Holds(rows, documents)
    ensures var edited := rows[key := row];
      && (forall o: Owner :: Key(o) != key ==>
            Read(edited, Key(o), o) == if o in documents then Found(documents[o]) else Absent)
      && (forall o: Owner, p: Owner :: Key(o) == key && Key(p) == key ==> o == p)
      && (forall o: Owner :: Key(o) == key ==> (Read(edited, key, o).Absent? <==> row.Empty?))
  {
    hide Key;
    var edited := rows[key := row];
    forall o: Owner | Key(o) != key
      ensures Read(edited, Key(o), o) == if o in documents then Found(documents[o]) else Absent
    {
      ReadIsLookup(rows, documents, o);
    }
    forall o: Owner, p: Owner | Key(o) == key && Key(p) == key ensures o == p {
      KeysAreInjective(o, p);
    }
  }

  // A document whose row was emptied reads as never written, and what its owner then saves stands in
  // its place, in a store that is sound again and has no trace of it.
  lemma EmptiedRowIsOverwritten<V>(rows: map<string, Row<V>>, documents: map<Owner, Stored<V>>, o: Owner, s: Stored<V>)
    requires Holds(rows, documents) && o in documents && s.owner == o
    ensures var emptied := rows[Key(o) := Empty];
      && Read(emptied, Key(o), o) == Absent
      && Holds(emptied[Key(o) := Readable(s)], documents[o := s])
  {
    hide Key, Holds;
    WriteIsUpdate(rows, documents, o, s);
    assert rows[Key(o) := Empty][Key(o) := Readable(s)] == rows[Key(o) := Readable(s)];
  }

  // One owner's row copied over another's is caught exactly when it crosses subjects. Within a
  // subject it is served as the other document, because only the subject is compared.
  lemma CopiedRowIsCaughtIff<V>(rows: map<string, Row<V>>, documents: map<Owner, Stored<V>>, o: Owner, p: Owner)
    requires Holds(rows, documents) && o != p && p in documents
    ensures Read(rows[Key(o) := rows[Key(p)]], Key(o), o)
            == if o.subject == p.subject then Found(documents[p]) else OwnerMismatch
    ensures Read(rows[Key(o) := rows[Key(p)]], Key(p), p) == Found(documents[p])
  {
    hide Key;
    if Key(o) == Key(p) {
      KeysAreInjective(o, p);
    }
  }

  class UserStateStore<V> {
    const blank: Subject -> bool
    var rows: map<string, Row<V>>
    ghost var documents: map<Owner, Stored<V>>

    ghost predicate Valid()
      reads this
    {
      && Holds(rows, documents)
      && forall o :: o in documents ==> !blank(o.subject)
    }

    constructor (blank: Subject -> bool)
      ensures Valid() && documents == map[] && this.blank == blank
    {
      this.blank, rows, documents := blank, map[], map[];
    }

    method Get(o: Owner, reply: Reply) returns (answer: Answer<V>)
      requires Valid()
      ensures answer ==
        if blank(o.subject) then ValueError
        else if reply != Answered then Unavailable
        else if o in documents then Found(documents[o])
        else Absent
    {
      KeysNeverHoldTheSeparator(blank, o);
      var key := StateKey(blank, o);
      if key.None? {
        return ValueError;
      }
      if reply != Answered {
        return Unavailable;
      }
      ReadIsLookup(rows, documents, o);
      answer := Read(rows, key.value, o);
    }

    method Put(o: Owner, value: V, now: int, reply: Reply) returns (w: Write)
      requires Valid()
      modifies this
      ensures Valid()
      ensures w == if blank(o.subject) then WriteRefused else if reply == Answered then Written else WriteUnavailable
      ensures documents ==
        if blank(o.subject) || reply == FailedBefore then old(documents)
        else old(documents)[o := Stored(o, now, value)]
    {
      KeysNeverHoldTheSeparator(blank, o);
      var key := StateKey(blank, o);
      if key.None? {
        return WriteRefused;
      }
      var stored := Stored(o, now, value);
      if reply != FailedBefore {
        WriteIsUpdate(rows, documents, o, stored);
        rows, documents := rows[key.value := Readable(stored)], documents[o := stored];
      }
      w := if reply == Answered then Written else WriteUnavailable;
    }

    method Delete(o: Owner, reply: Reply) returns (w: Write)
      requires Valid()
      modifies this
      ensures Valid()
      ensures w == if blank(o.subject) then WriteRefused else if reply == Answered then Written else WriteUnavailable
      ensures documents == if blank(o.subject) || reply == FailedBefore then old(documents) else old(documents) - {o}
    {
      KeysNeverHoldTheSeparator(blank, o);
      var key := StateKey(blank, o);
      if key.None? {
        return WriteRefused;
      }
      if reply != FailedBefore {
        DropIsRemoval(rows, documents, o);
        rows, documents := rows - {key.value}, documents - {o};
      }
      w := if reply == Answered then Written else WriteUnavailable;
    }
  }
}
