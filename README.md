# Notes system (`sistema_notas.py`) in Dafny

A model of a small personal note-taking system. A **note** (`Nota`) holds a
content string and an ordered list of tags; its methods add a tag only when it
is absent, remove the first occurrence of a tag, and replace the content. A
note converts to and from a dictionary with the keys `contenido` and
`etiquetas`. The **store** (`SistemaNotas`) keeps an ordered list of notes,
loads them from a JSON file when it is created, and rewrites the whole file
after every successful change. Notes are appended, edited by a 0-based index
(out of range raises `IndexError`) and deleted by a 1-based number (out of
range raises `ValueError`). Two searches filter the notes by exact tag and by
case-insensitive substring of the content.

Files:

- `wrappers.dfy` — `Result`, `Outcome` and `Option`. Python exceptions become
  `Failure`/`Fail` values and `None` arguments become `Option`.
- `text.dfy` — ASCII lower-casing, substring search (`in` on strings) and
  `str.join`, with the lemmas the searches and the printed form need.
- `notes.dfy` — the note's value `NoteData`, the tag-list functions that specify
  the note's methods, the dictionary form (`Encode`/`Decode`) and the file
  form (`EncodeAll`/`DecodeAll`), the printed form, and the class `Nota`.
- `store.dfy` — the class `SistemaNotas` over `notas: seq<Nota>`, plus the two
  filters as order-preserving selections.

The store holds references to note objects, as the Python list does, and
`Valid()` says they are pairwise distinct. Editing note `i` therefore leaves
every other note untouched. The file is the field `archivo`: `None` while no
file exists, otherwise the list of dictionaries it holds. Every successful
mutation ends with `Saved()`, meaning the file holds exactly the encoded
notes. `SaveLoadRoundTrip` shows that loading that file gives the same notes
back, in the same order.

Where the code and its description differ, the model follows the code:

- Tags are not kept duplicate-free by the store. The constructor and
  `editar_nota` accept any list. Only `AddedTag` (`agregar_etiqueta`) keeps a
  duplicate-free list duplicate-free.
- `from_dict` raises `KeyError` when a key is missing; it does not default to
  an empty tag list. Only a `None` or empty tag list becomes `[]`.

## Model

| member | source | states |
|---|---|---|
| `Text.Lower` | sistema_notas.py:65 | `str.lower()` keeps the length, maps each of 'A'..'Z' to the letter 32 code points higher ('a'..'z') and keeps every other character |
| `Text.Contains` | sistema_notas.py:65 | `needle in hay`: the empty string is found in every string, a match needs a needle no longer than the text, and strings of equal length contain each other exactly when they are equal |
| `Text.ContainsIgnoringCase` | sistema_notas.py:65 | `termino.lower() in contenido.lower()`: an exact occurrence always matches, the empty term matches every content, and a match needs a term no longer than the content |
| `Text.TermCaseIrrelevant` | sistema_notas.py:65 | the content search gives the same answer for a term and its lower-cased form |
| `Text.CapitalisedTermMatches` | sistema_notas.py:65 | "Hello" matches the content "hello world" |
| `Text.Join` | sistema_notas.py:31 | `', '.join`: the empty list gives "", one element gives itself, and otherwise the result starts with the first element and its length is the summed lengths plus one separator per gap |
| `Text.JoinShowsEach` | sistema_notas.py:31 | every tag joined by `', '.join` occurs in the joined string |
| `Notes.InitialTags` | sistema_notas.py:7 | a given tag list is kept; `None` gives the empty list |
| `Notes.AddedTag` | sistema_notas.py:9-11 | the tag is present afterwards; the old list is a prefix; the length grows by one exactly when the tag was absent, and the new element is that tag; no duplicate is created |
| `Notes.AddTagIdempotent` | sistema_notas.py:9-11 | adding the same tag twice equals adding it once |
| `Notes.RemovedTag` | sistema_notas.py:13-15 | an absent tag leaves the list unchanged; a present one shortens it by one |
| `Notes.RemovedTagMultiset` | sistema_notas.py:13-15 | removal takes exactly one copy of the tag out of the list's multiset and keeps every other element |
| `Notes.RemovedTagFirstOccurrence` | sistema_notas.py:13-15 | removal cuts out exactly the first occurrence and keeps the order of the rest |
| `Notes.RemovedTagKeepsNoDuplicates` | sistema_notas.py:13-15 | on a duplicate-free list the tag is gone afterwards and no duplicate appears |
| `Notes.Decode` | sistema_notas.py:26-28 | `from_dict`: a missing `contenido` raises `KeyError('contenido')` first, then a missing `etiquetas` raises `KeyError('etiquetas')`; decoding succeeds exactly when both keys are present with a string content and a list or `None` of tags; on success the content and tags are the dictionary's, and `None` tags give `[]` |
| `Notes.Encode` | sistema_notas.py:20-24 | `to_dict` has exactly the keys `contenido` and `etiquetas`, and decoding it gives back the same note |
| `Notes.EncodeAll` | sistema_notas.py:75-77 | the file holds one dictionary per note, in the notes' order |
| `Notes.DecodeAll` | sistema_notas.py:79-83 | a successful load yields as many notes as the file has dictionaries |
| `Notes.DecodeAllSucceeds` | sistema_notas.py:82-83 | when every dictionary decodes, the load gives the decoded notes in file order |
| `Notes.DecodeAllFailsAtFirst` | sistema_notas.py:82-83 | the first dictionary that fails to decode decides the error of the whole load |
| `Notes.SaveLoadRoundTrip` | sistema_notas.py:75-83 | loading the file that saving writes gives back the same notes in the same order |
| `Notes.Render` | sistema_notas.py:30-31 | `__str__` starts with "Nota: " and the content, and every tag occurs in it |
| `Notes.Nota.constructor` | sistema_notas.py:5-7 | the new note has the given content and the given tags, or `[]` when the tags are `None` or empty |
| `Notes.Nota.AgregarEtiqueta` | sistema_notas.py:9-11 | the tags become `AddedTag` of the old tags; the content is unchanged |
| `Notes.Nota.EliminarEtiqueta` | sistema_notas.py:13-15 | the tags become `RemovedTag` of the old tags; the content is unchanged |
| `Notes.Nota.EditarContenido` | sistema_notas.py:17-18 | the content is replaced and the tags are unchanged |
| `Notes.Nota.ToDict` | sistema_notas.py:20-24 | the dictionary has the two keys and decodes back to the note's current value |
| `Notes.Nota.FromDict` | sistema_notas.py:26-28 | a decodable dictionary gives a fresh note holding the decoded value; otherwise the decoding error is raised |
| `Notes.Nota.ToString` | sistema_notas.py:30-31 | the printed form starts with "Nota: " and the note's content, and every tag of the note occurs in it |
| `Store.FileNotes` | sistema_notas.py:80-83 | the notes a store loads: no file gives no notes, and a file holding the encoding of some notes gives back exactly those notes |
| `Store.SelectTagged` | sistema_notas.py:62 | the selection is an order-preserving subsequence holding exactly the notes whose tags contain the tag |
| `Store.SelectContaining` | sistema_notas.py:65 | the selection is an order-preserving subsequence holding exactly the notes whose content contains the term, ignoring case |
| `Store.EmptyTermSelectsAll` | sistema_notas.py:64-65 | searching for the empty term returns every note in order |
| `Store.SistemaNotas.constructor` | sistema_notas.py:35-37 | a new store has no notes and refers to the given file |
| `Store.SistemaNotas.Abrir` | sistema_notas.py:35-38 | creating a store loads the file: no file gives no notes, a decodable file gives its notes, and otherwise the decoding error is raised |
| `Store.SistemaNotas.CargarNotas` | sistema_notas.py:79-83 | a missing file changes nothing; a decodable file replaces the notes with fresh objects holding the decoded values; a failing dictionary raises its error and replaces nothing |
| `Store.SistemaNotas.GuardarNotas` | sistema_notas.py:75-77 | afterwards the file holds exactly the encoded notes |
| `Store.SistemaNotas.AgregarNota` | sistema_notas.py:40-43 | one fresh note is appended with the given content and tags (`[]` for `None`/empty); earlier notes are unchanged; the file is saved |
| `Store.SistemaNotas.EditarNota` | sistema_notas.py:45-52 | for `0 <= indice < len`, only note `indice` changes: its content is replaced and its tags are replaced when new ones are given (even empty) or kept when they are `None`; the file is saved. Any other index raises `IndexError` and changes neither the notes nor the file |
| `Store.SistemaNotas.EliminarNota` | sistema_notas.py:54-59 | for `1 <= numero <= len` the notes become `notas[..numero-1] + notas[numero..]` and the file is saved. Any other number raises `ValueError` and changes neither the notes nor the file |
| `Store.SistemaNotas.BuscarPorEtiqueta` | sistema_notas.py:61-62 | an order-preserving subsequence of the stored notes holding exactly those whose tag list contains the tag; the store is not changed |
| `Store.SistemaNotas.BuscarPorContenido` | sistema_notas.py:64-65 | an order-preserving subsequence of the stored notes holding exactly those whose lower-cased content contains the lower-cased term; the store is not changed |

## Left out

- `menu` (sistema_notas.py:85-154) and `mostrar_notas` (sistema_notas.py:67-73): console input, output and the loop that drives them.
- File I/O and JSON text: opening, writing and parsing the file, and `os.path.exists`, are not modelled. The file is represented by its content (`archivo`), already parsed into dictionaries. A malformed file, which makes `json.load` raise, is not modelled. Neither is a failing write.
- The file path (`self.archivo` in the source) is not modelled. The field `archivo` stands for the content at that path.
- Text.Lower: lower-cases only the ASCII letters A-Z. Python's `str.lower()` also maps other Unicode letters.
- Notes.Decode: handles only string content and tags that are a list of strings or `None`. Python would store any other JSON value unchecked, such as numeric content or a tag string (which is even treated as `[]` when empty). The model reports these as `UnsupportedValue`.
- Aliasing of tag lists: the constructor and `editar_nota` keep the caller's list object, so later changes to that list would show in the note. Tags are modelled as values.
