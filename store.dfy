/** The note store (`SistemaNotas` in sistema_notas.py): an ordered list of
    note objects mirrored to a file after every change. */
module Store {
  import opened Wrappers
  import opened Text
  import opened Notes

  /** The exceptions the store raises on a bad position. */
  datatype StoreError =
    | IndexError  // editar_nota: 0-based index out of range
    | ValueError  // eliminar_nota: 1-based number out of range

  /** `r` keeps some of the elements of `s`, in their order in `s`. */
  ghost predicate IsSubsequence<T>(r: seq<T>, s: seq<T>)
  {
    r == [] || (s != [] && ((r[0] == s[0] && IsSubsequence(r[1..], s[1..])) || IsSubsequence(r, s[1..])))
  }

  /** The values of a list of note objects. */
  function ValuesOf(ns: seq<Nota>): (vs: seq<NoteData>)
    reads ns
    ensures |vs| == |ns|
    ensures forall i :: 0 <= i < |ns| ==> vs[i] == ns[i].Value()
  {
    seq(|ns|, i requires 0 <= i < |ns| reads ns => ns[i].Value())
  }

  /** `[nota for nota in ns if etiqueta in nota.etiquetas]`. */
  function SelectTagged(ns: seq<Nota>, etiqueta: string): (r: seq<Nota>)
    reads ns
    ensures IsSubsequence(r, ns)
    ensures forall i :: 0 <= i < |r| ==> r[i] in ns && etiqueta in r[i].etiquetas
    ensures forall i :: 0 <= i < |ns| && etiqueta in ns[i].etiquetas ==> ns[i] in r
  {
    if ns == [] then []
    else if etiqueta in ns[0].etiquetas then [ns[0]] + SelectTagged(ns[1..], etiqueta)
    else SelectTagged(ns[1..], etiqueta)
  }

  /** `[nota for nota in ns if termino.lower() in nota.contenido.lower()]`. */
  function SelectContaining(ns: seq<Nota>, termino: string): (r: seq<Nota>)
    reads ns
    ensures IsSubsequence(r, ns)
    ensures forall i :: 0 <= i < |r| ==> r[i] in ns && ContainsIgnoringCase(r[i].contenido, termino)
    ensures forall i :: 0 <= i < |ns| && ContainsIgnoringCase(ns[i].contenido, termino) ==> ns[i] in r
  {
    if ns == [] then []
    else if ContainsIgnoringCase(ns[0].contenido, termino) then [ns[0]] + SelectContaining(ns[1..], termino)
    else SelectContaining(ns[1..], termino)
  }

  /** Searching for the empty term returns every note, in order. */
  lemma {:induction false} EmptyTermSelectsAll(ns: seq<Nota>)
    ensures SelectContaining(ns, "") == ns
  {
    if ns != [] {
      EmptyTermSelectsAll(ns[1..]);
    }
  }

  /** The notes a store loads from the file: no file gives no notes, and a
      file that `guardar_notas` wrote gives back the notes it saved. */
  function FileNotes(archivo: Option<seq<Dict>>): (r: Result<seq<NoteData>, DictError>)
    ensures archivo.None? ==> r == Success([])
    ensures forall ns :: archivo == Some(EncodeAll(ns)) ==> r == Success(ns)
  {
    assert forall ns :: archivo == Some(EncodeAll(ns)) ==> DecodeAll(archivo.value) == Success(ns) by {
      forall ns | archivo == Some(EncodeAll(ns)) {
        SaveLoadRoundTrip(ns);
      }
    }
    if archivo.None? then Success([]) else DecodeAll(archivo.value)
  }

  class SistemaNotas {
    /** The notes, in order; a note's position is its identity. */
    var notas: seq<Nota>
    /** The content of the notes file (`None` while the file does not exist). */
    var archivo: Option<seq<Dict>>

    /** Every stored note is a distinct object. */
    ghost predicate Valid()
      reads this
    {
      forall i, j :: 0 <= i < j < |notas| ==> notas[i] != notas[j]
    }

    /** The values of the stored notes. */
    function Valores(): seq<NoteData>
      reads this, notas
    {
      ValuesOf(notas)
    }

    /** The file holds exactly the stored notes (what `guardar_notas` ensures). */
    ghost predicate Saved()
      reads this, notas
    {
      archivo == Some(EncodeAll(Valores()))
    }

    /** Allocates a store with no notes over the given file content. */
    constructor (archivo: Option<seq<Dict>>)
      ensures Valid() && notas == [] && this.archivo == archivo
    {
      notas := [];
      this.archivo := archivo;
    }

    /** `SistemaNotas(archivo)`: an empty store that loads the file, if there is
        one; a file that does not decode raises. */
    static method Abrir(archivo: Option<seq<Dict>>) returns (r: Result<SistemaNotas, DictError>)
      ensures FileNotes(archivo).Failure? ==> r == Failure(FileNotes(archivo).error)
      ensures FileNotes(archivo).Success? ==>
        r.Success? && fresh(r.value) && r.value.Valid() && r.value.archivo == archivo &&
        r.value.Valores() == FileNotes(archivo).value
    {
      var s := new SistemaNotas(archivo);
      var o := s.CargarNotas();
      if o.Fail? {
        r := Failure(o.error);
      } else {
        r := Success(s);
      }
    }

    /** `cargar_notas`: replaces the notes with fresh ones decoded from the file;
        a missing file changes nothing, and a failing dictionary raises before
        anything is replaced. */
    method CargarNotas() returns (r: Outcome<DictError>)
      requires Valid()
      modifies this
      ensures Valid() && archivo == old(archivo)
      ensures archivo.None? ==> r == Pass && notas == old(notas)
      ensures archivo.Some? && DecodeAll(archivo.value).Failure? ==>
        r == Fail(DecodeAll(archivo.value).error) && notas == old(notas)
      ensures archivo.Some? && DecodeAll(archivo.value).Success? ==>
        r == Pass && Valores() == DecodeAll(archivo.value).value &&
        forall i :: 0 <= i < |notas| ==> fresh(notas[i])
    {
      r := Pass;
      if archivo.Some? {
        var datos := archivo.value;
        var cargadas: seq<Nota> := [];
        var i := 0;
        while i < |datos|
          invariant 0 <= i <= |datos| && |cargadas| == i
          invariant notas == old(notas) && archivo == old(archivo)
          invariant DecodeAll(datos[..i]) == Success(ValuesOf(cargadas))
          invariant forall k :: 0 <= k < i ==> fresh(cargadas[k])
          invariant forall k, l :: 0 <= k < l < i ==> cargadas[k] != cargadas[l]
        {
          var n := Nota.FromDict(datos[i]);
          if n.Failure? {
            DecodeAllFailsAtFirst(datos, i, n.error);
            return Fail(n.error);
          }
          assert datos[..i + 1][..i] == datos[..i] && datos[..i + 1][i] == datos[i];
          assert ValuesOf(cargadas + [n.value]) == ValuesOf(cargadas) + [n.value.Value()];
          cargadas := cargadas + [n.value];
          i := i + 1;
        }
        assert datos[..i] == datos;
        notas := cargadas;
      }
    }

    /** `guardar_notas`: writes every note's dictionary to the file. */
    method GuardarNotas()
      modifies this
      ensures notas == old(notas) && Saved()
    {
      archivo := Some(EncodeAll(Valores()));
    }

    /** `agregar_nota`: appends a fresh note and saves. */
    method AgregarNota(contenido: string, etiquetas: Option<seq<string>>)
      requires Valid()
      modifies this
      ensures Valid() && Saved()
      ensures |notas| == |old(notas)| + 1 && notas[..|old(notas)|] == old(notas) && fresh(notas[|old(notas)|])
      ensures Valores() == old(Valores()) + [NoteData(contenido, InitialTags(etiquetas))]
    {
      var nueva := new Nota(contenido, etiquetas);
      notas := notas + [nueva];
      GuardarNotas();
    }

    /** `editar_nota`: for a 0-based index in range, replaces the note's content
        and, when new tags are given (even an empty list), its whole tag list,
        then saves; any other index raises IndexError and changes nothing. */
    method EditarNota(indice: int, nuevoContenido: string, nuevasEtiquetas: Option<seq<string>>)
      returns (r: Outcome<StoreError>)
      requires Valid()
      modifies this, notas
      ensures Valid() && notas == old(notas)
      ensures r.Pass? <==> 0 <= indice < |notas|
      ensures 0 <= indice < |notas| ==>
        Saved() &&
        Valores() == old(Valores())[indice := NoteData(nuevoContenido,
          if nuevasEtiquetas.Some? then nuevasEtiquetas.value else old(Valores())[indice].tags)]
      ensures !(0 <= indice < |notas|) ==>
        r == Fail(IndexError) && Valores() == old(Valores()) && archivo == old(archivo)
    {
      if 0 <= indice < |notas| {
        var nota := notas[indice];
        nota.EditarContenido(nuevoContenido);
        if nuevasEtiquetas.Some? {
          nota.etiquetas := nuevasEtiquetas.value;
        }
        assert forall k :: 0 <= k < |notas| && k != indice ==> notas[k] != nota;
        GuardarNotas();
        r := Pass;
      } else {
        r := Fail(IndexError);
      }
    }

    /** `eliminar_nota`: for a 1-based number in range, removes that note and
        saves; any other number raises ValueError and changes nothing. */
    method EliminarNota(numero: int) returns (r: Outcome<StoreError>)
      requires Valid()
      modifies this
      ensures Valid()
      ensures r.Pass? <==> 1 <= numero <= |old(notas)|
      ensures 1 <= numero <= |old(notas)| ==>
        Saved() &&
        notas == old(notas)[..numero - 1] + old(notas)[numero..] &&
        Valores() == old(Valores())[..numero - 1] + old(Valores())[numero..]
      ensures !(1 <= numero <= |old(notas)|) ==>
        r == Fail(ValueError) && notas == old(notas) && archivo == old(archivo)
    {
      if 1 <= numero <= |notas| {
        notas := notas[..numero - 1] + notas[numero..];
        GuardarNotas();
        r := Pass;
      } else {
        r := Fail(ValueError);
      }
    }

    /** `buscar_por_etiqueta`: the stored notes, in order, whose tag list
        contains the tag exactly. */
    function BuscarPorEtiqueta(etiqueta: string): (r: seq<Nota>)
      reads this, notas
      ensures IsSubsequence(r, notas)
      ensures forall i :: 0 <= i < |r| ==> r[i] in notas && etiqueta in r[i].etiquetas
      ensures forall i :: 0 <= i < |notas| && etiqueta in notas[i].etiquetas ==> notas[i] in r
    {
      SelectTagged(notas, etiqueta)
    }

    /** `buscar_por_contenido`: the stored notes, in order, whose content
        contains the term, ignoring case. */
    function BuscarPorContenido(termino: string): (r: seq<Nota>)
      reads this, notas
      ensures IsSubsequence(r, notas)
      ensures forall i :: 0 <= i < |r| ==> r[i] in notas && ContainsIgnoringCase(r[i].contenido, termino)
      ensures forall i :: 0 <= i < |notas| && ContainsIgnoringCase(notas[i].contenido, termino) ==> notas[i] in r
    {
      SelectContaining(notas, termino)
    }
  }

  /** Two notes added to an empty store are kept in order, and a tag search
      finds only the note that carries the tag. */
  method TwoNotesScenario()
  {
    var s := new SistemaNotas(None);
    s.AgregarNota("Buy milk", Some(["errand"]));
    s.AgregarNota("Write report", Some(["work", "urgent"]));
    assert s.Valores() == [NoteData("Buy milk", ["errand"]), NoteData("Write report", ["work", "urgent"])];
    var encontradas := s.BuscarPorEtiqueta("urgent");
    assert s.notas[1] in encontradas;
    assert forall i :: 0 <= i < |encontradas| ==> encontradas[i] == s.notas[1];
  }
}
