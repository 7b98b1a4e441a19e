/** A single note (`Nota` in sistema_notas.py): a content string plus an
    ordered list of tags, its dictionary form and its printed form. */
module Notes {
  import opened Wrappers
  import opened Text

  /** The value held by a note at one moment: what is written to and read
      back from the notes file. */
  datatype NoteData = NoteData(content: string, tags: seq<string>)

  /** No tag occurs twice. */
  predicate NoDuplicates(tags: seq<string>)
  {
    forall i, j :: 0 <= i < j < |tags| ==> tags[i] != tags[j]
  }

  /** The tag list a new note starts with: `etiquetas if etiquetas else []`,
      so both a missing (`None`) and an empty list give []. */
  function InitialTags(etiquetas: Option<seq<string>>): (r: seq<string>)
    ensures etiquetas.Some? ==> r == etiquetas.value
    ensures etiquetas.None? ==> r == []
  {
    if etiquetas.Some? && etiquetas.value != [] then etiquetas.value else []
  }

  /** The tag list after `agregar_etiqueta(t)`. */
  function AddedTag(tags: seq<string>, t: string): (r: seq<string>)
    ensures t in r
    ensures forall x :: x in r <==> x in tags || x == t
    ensures |tags| <= |r| <= |tags| + 1 && r[..|tags|] == tags
    ensures |r| == |tags| <==> t in tags
    ensures NoDuplicates(tags) ==> NoDuplicates(r)
  {
    if t in tags then tags else tags + [t]
  }

  /** Adding a tag twice is the same as adding it once. */
  lemma AddTagIdempotent(tags: seq<string>, t: string)
    ensures AddedTag(AddedTag(tags, t), t) == AddedTag(tags, t)
  {
  }

  /** The tag list after `eliminar_etiqueta(t)`: Python's `list.remove`
      drops the first occurrence only. */
  function RemovedTag(tags: seq<string>, t: string): (r: seq<string>)
    ensures t !in tags ==> r == tags
    ensures t in tags ==> |r| == |tags| - 1
  {
    if tags == [] then []
    else if tags[0] == t then tags[1..]
    else [tags[0]] + RemovedTag(tags[1..], t)
  }

  /** Removing a tag takes exactly one copy of it out of the list's multiset
      and leaves every other element. */
  lemma {:induction false} RemovedTagMultiset(tags: seq<string>, t: string)
    ensures multiset(RemovedTag(tags, t)) == multiset(tags) - multiset{t}
  {
    if tags != [] {
      assert tags == [tags[0]] + tags[1..];
      if tags[0] != t {
        RemovedTagMultiset(tags[1..], t);
      }
    }
  }

  /** Removing a present tag cuts out exactly its first occurrence and keeps
      the order of everything else. */
  lemma {:induction false} RemovedTagFirstOccurrence(tags: seq<string>, t: string, i: nat)
    requires i < |tags| && tags[i] == t
    requires forall k :: 0 <= k < i ==> tags[k] != t
    ensures RemovedTag(tags, t) == tags[..i] + tags[i + 1..]
  {
    if i == 0 {
      assert tags[..0] + tags[1..] == tags[1..];
    } else {
      var rest := tags[1..];
      RemovedTagFirstOccurrence(rest, t, i - 1);
      calc {
        RemovedTag(tags, t);
        [tags[0]] + RemovedTag(rest, t);
        [tags[0]] + (rest[..i - 1] + rest[i..]);
        { assert rest[..i - 1] == tags[1..i] && rest[i..] == tags[i + 1..]; }
        ([tags[0]] + tags[1..i]) + tags[i + 1..];
        { assert [tags[0]] + tags[1..i] == tags[..i]; }
        tags[..i] + tags[i + 1..];
      }
    }
  }

  /** Cutting one position out of a duplicate-free list leaves a duplicate-free
      list without the element that was cut. */
  lemma CutKeepsNoDuplicates(tags: seq<string>, i: nat)
    requires NoDuplicates(tags) && i < |tags|
    ensures tags[i] !in tags[..i] + tags[i + 1..]
    ensures NoDuplicates(tags[..i] + tags[i + 1..])
  {
    var r := tags[..i] + tags[i + 1..];
    forall k | 0 <= k < |r|
      ensures r[k] == tags[if k < i then k else k + 1]
    {
      if k < i { assert r[k] == tags[..i][k]; } else { assert r[k] == tags[i + 1..][k - i]; }
    }
  }

  /** On a duplicate-free list, removing a tag leaves no copy of it and no
      duplicate behind. */
  lemma RemovedTagKeepsNoDuplicates(tags: seq<string>, t: string)
    requires NoDuplicates(tags)
    ensures t !in RemovedTag(tags, t)
    ensures NoDuplicates(RemovedTag(tags, t))
  {
    if t in tags {
      var i :| 0 <= i < |tags| && tags[i] == t;
      RemovedTagFirstOccurrence(tags, t, i);
      CutKeepsNoDuplicates(tags, i);
    }
  }

  /** A JSON value of the notes file, restricted to the kinds a note holds. */
  datatype Json = JString(s: string) | JStrings(items: seq<string>) | JNull

  /** A JSON object, as produced by `to_dict` and read by `from_dict`. */
  type Dict = map<string, Json>

  const ContentKey: string := "contenido"
  const TagsKey: string := "etiquetas"

  /** Why a dictionary could not be turned into a note. */
  datatype DictError =
    | KeyError(key: string)          // the key is missing
    | UnsupportedValue(key: string)  // the value is of a kind a note does not hold

  /** `Nota.from_dict(data)`: `Nota(data['contenido'], data['etiquetas'])`,
      the content key being looked up first. */
  function Decode(d: Dict): (r: Result<NoteData, DictError>)
    ensures ContentKey !in d ==> r == Failure(KeyError(ContentKey))
    ensures ContentKey in d && TagsKey !in d ==> r == Failure(KeyError(TagsKey))
    ensures r.Success? <==>
      ContentKey in d && TagsKey in d && d[ContentKey].JString? && !d[TagsKey].JString?
    ensures r.Success? ==> d[ContentKey] == JString(r.value.content)
    ensures r.Success? && d[TagsKey].JStrings? ==> r.value.tags == d[TagsKey].items
    ensures r.Success? && d[TagsKey].JNull? ==> r.value.tags == []
  {
    if ContentKey !in d then Failure(KeyError(ContentKey))
    else if TagsKey !in d then Failure(KeyError(TagsKey))
    else if !d[ContentKey].JString? then Failure(UnsupportedValue(ContentKey))
    else match d[TagsKey]
      case JString(_) => Failure(UnsupportedValue(TagsKey))
      case JNull => Success(NoteData(d[ContentKey].s, InitialTags(None)))
      case JStrings(items) => Success(NoteData(d[ContentKey].s, InitialTags(Some(items))))
  }

  /** `to_dict`: the note as a dictionary with exactly the two keys; decoding
      it gives the note back. */
  function Encode(n: NoteData): (d: Dict)
    ensures d.Keys == {ContentKey, TagsKey}
    ensures Decode(d) == Success(n)
  {
    map[ContentKey := JString(n.content), TagsKey := JStrings(n.tags)]
  }

  /** The notes file written by `guardar_notas`: one dictionary per note, in order. */
  function EncodeAll(ns: seq<NoteData>): (ds: seq<Dict>)
    ensures |ds| == |ns|
    ensures forall i :: 0 <= i < |ns| ==> ds[i] == Encode(ns[i])
  {
    seq(|ns|, i requires 0 <= i < |ns| => Encode(ns[i]))
  }

  /** The notes read by `cargar_notas`: every dictionary decoded, front to back;
      the first one that fails stops the load with its error. */
  function DecodeAll(ds: seq<Dict>): (r: Result<seq<NoteData>, DictError>)
    ensures r.Success? ==> |r.value| == |ds|
  {
    if ds == [] then Success([])
    else match DecodeAll(ds[..|ds| - 1])
      case Failure(e) => Failure(e)
      case Success(ns) =>
        match Decode(ds[|ds| - 1])
        case Failure(e) => Failure(e)
        case Success(n) => Success(ns + [n])
  }

  /** Loading succeeds exactly when every dictionary decodes, and then gives
      the decoded notes in file order. */
  lemma {:induction false} DecodeAllSucceeds(ds: seq<Dict>, ns: seq<NoteData>)
    requires |ds| == |ns|
    requires forall i :: 0 <= i < |ds| ==> Decode(ds[i]) == Success(ns[i])
    ensures DecodeAll(ds) == Success(ns)
  {
    if ds != [] {
      var k := |ds| - 1;
      DecodeAllSucceeds(ds[..k], ns[..k]);
      assert ns[..k] + [ns[k]] == ns;
    }
  }

  /** The first dictionary that does not decode decides the error of the whole load. */
  lemma {:induction false} DecodeAllFailsAtFirst(ds: seq<Dict>, k: nat, e: DictError)
    requires k < |ds|
    requires DecodeAll(ds[..k]).Success? && Decode(ds[k]) == Failure(e)
    ensures DecodeAll(ds) == Failure(e)
  {
    if k < |ds| - 1 {
      var front := ds[..|ds| - 1];
      assert front[..k] == ds[..k] && front[k] == ds[k];
      DecodeAllFailsAtFirst(front, k, e);
    } else {
      assert ds[..|ds| - 1] == ds[..k];
    }
  }

  /** Saving notes and loading the file back gives the same notes in the same
      order: the persistence round trip. */
  lemma SaveLoadRoundTrip(ns: seq<NoteData>)
    ensures DecodeAll(EncodeAll(ns)) == Success(ns)
  {
    DecodeAllSucceeds(EncodeAll(ns), ns);
  }

  /** `__str__`: "Nota: <content>", a newline, then "Etiquetas: " and the
      tags joined by ", ". */
  function Render(n: NoteData): (s: string)
    ensures |s| >= |"Nota: " + n.content| && s[..|"Nota: " + n.content|] == "Nota: " + n.content
    ensures forall t :: t in n.tags ==> Contains(s, t)
  {
    var head := "Nota: " + n.content + "\nEtiquetas: ";
    var s := head + Join(", ", n.tags);
    assert forall t :: t in n.tags ==> Contains(s, t) by {
      forall t | t in n.tags ensures Contains(s, t) {
        JoinShowsEach(", ", n.tags, t);
        ContainedInSuffix(head, Join(", ", n.tags), t);
      }
    }
    s
  }

  /** A note object, updated in place by its methods. */
  class Nota {
    var contenido: string
    var etiquetas: seq<string>

    /** `Nota(contenido, etiquetas=None)`. */
    constructor (contenido: string, etiquetas: Option<seq<string>>)
      ensures this.contenido == contenido
      ensures this.etiquetas == InitialTags(etiquetas)
    {
      this.contenido := contenido;
      this.etiquetas := InitialTags(etiquetas);
    }

    /** The note's current value. */
    function Value(): NoteData
      reads this
    {
      NoteData(contenido, etiquetas)
    }

    /** Appends the tag unless it is already there. */
    method AgregarEtiqueta(etiqueta: string)
      modifies this
      ensures etiquetas == AddedTag(old(etiquetas), etiqueta)
      ensures contenido == old(contenido)
    {
      if etiqueta !in etiquetas {
        etiquetas := etiquetas + [etiqueta];
      }
    }

    /** Removes the first occurrence of the tag, if there is one. */
    method EliminarEtiqueta(etiqueta: string)
      modifies this
      ensures etiquetas == RemovedTag(old(etiquetas), etiqueta)
      ensures contenido == old(contenido)
    {
      if etiqueta in etiquetas {
        etiquetas := RemovedTag(etiquetas, etiqueta);
      }
    }

    /** Replaces the content; the tags stay. */
    method EditarContenido(nuevoContenido: string)
      modifies this
      ensures contenido == nuevoContenido
      ensures etiquetas == old(etiquetas)
    {
      contenido := nuevoContenido;
    }

    /** `to_dict`: decoding the dictionary gives the note's value back. */
    function ToDict(): (d: Dict)
      reads this
      ensures d.Keys == {ContentKey, TagsKey}
      ensures Decode(d) == Success(Value())
    {
      Encode(Value())
    }

    /** `Nota.from_dict(data)`: a fresh note built from the dictionary, or the
        error the lookup raises. */
    static method FromDict(data: Dict) returns (r: Result<Nota, DictError>)
      ensures Decode(data).Failure? ==> r == Failure(Decode(data).error)
      ensures Decode(data).Success? ==> r.Success? && fresh(r.value) && r.value.Value() == Decode(data).value
    {
      match Decode(data)
      case Failure(e) =>
        r := Failure(e);
      case Success(_) =>
        var etiquetas := if data[TagsKey].JStrings? then Some(data[TagsKey].items) else None;
        var n := new Nota(data[ContentKey].s, etiquetas);
        r := Success(n);
    }

    /** `__str__`: starts with "Nota: " and the content, and shows every tag. */
    function ToString(): (s: string)
      reads this
      ensures |s| >= |"Nota: " + contenido| && s[..|"Nota: " + contenido|] == "Nota: " + contenido
      ensures forall t :: t in etiquetas ==> Contains(s, t)
    {
      Render(Value())
    }
  }
}
