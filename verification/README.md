# Contact book ("Agenda") in Dafny

A model of the contact book of the `agenda` crate. A contact (`Contato`) has a
name, a phone, and an optional email and address. The crate holds two
independent contact books and two desktop forms:

- **Indexed agenda** (`src/lib.rs`). A name index, a phone index and an
  insertion-ordered list, kept in step by add, lookup by name or phone,
  list-all, remove-by-name and remove-by-phone. It is modelled in
  `indexed_agenda.dfy` as two `map<string, Contact>` plus a `seq<Contact>`,
  with pure functions that return the new agenda and, for removals, the
  removed record.
- **Stored agenda** (`src/contacts.rs`). A single list that is rewritten to
  `contatos.json` after every change and loaded from it at start-up. It is
  modelled in `stored_agenda.dfy`. The store is reduced to what loading can
  tell apart: missing, unopenable, unparsable, or holding a list of records.
- **Forms** (`src/ui.rs` on the stored agenda, `src/main.rs` on the indexed
  agenda). They build a record from four text fields, with an empty field
  meaning "absent" and no trimming. They check the input with a blank-name
  test plus the phone regex `^\(?\d{2}\)?\s?\d{4,5}-?\d{4}$`, search names
  (ui.rs only) and toggle between two views. The shared helpers are in
  `form.dfy`, the two applications in `list_app.dfy` and `indexed_app.dfy`.
  `text.dfy` models `str::trim`, whitespace and substring search.
  `phone.dfy` holds the phone rule twice: as the regex's language, written
  as a set of slot templates, and as a hand-written left-to-right
  recogniser. It proves the two equal.

The central invariant of the indexed agenda is `IndexedAgenda.Consistent`:
both indexes and the list describe the same records, each record exactly
once. Adding a record with a fresh name and phone preserves it, and so do
both removals. A name collision breaks it, and `AddNameCollision` and
`CollisionThenRemoveLeavesStalePhone` show how.

`mostrar_todos_nomes` in `src/lib.rs` calls `.values()` on a `Vec`, which
does not compile. `IndexedAgenda.ListAll` models the evident intent: return
the list in insertion order.

`src/ui.rs` and `src/contacts.rs` are not declared as modules by
`src/lib.rs` or `src/main.rs`; they are modelled as written.

## Model

| member | source | states |
|---|---|---|
| `IndexedAgenda.New` | src/lib.rs:18-24 | a new agenda finds nothing by name or phone, lists nothing and is consistent |
| `IndexedAgenda.Add` | src/lib.rs:26-30 | afterwards both lookups return the added record; lookups of every other name and phone are unchanged; the list grows by one with the old list as prefix and the record last |
| `IndexedAgenda.FindByName` | src/lib.rs:32-34 | returns the name index's record when the name is indexed, otherwise none; under the invariant, a hit carries the queried name and is listed, and there is a hit iff some listed record has that name |
| `IndexedAgenda.FindByPhone` | src/lib.rs:41-43 | the same for the phone index |
| `IndexedAgenda.ListAll` | src/lib.rs:36-38 | the list in insertion order; under the invariant a record is listed iff the name lookup (or the phone lookup) of its own key returns it |
| `IndexedAgenda.RemoveByName` | src/lib.rs:45-53 | on an unindexed name, returns none and changes nothing; otherwise returns the indexed record, unindexes exactly that name and that record's phone, and keeps exactly the listed records with another name, with their multiplicities, in order |
| `IndexedAgenda.RemoveByPhone` | src/lib.rs:55-63 | the mirror image keyed by phone: unindexes the phone and the removed record's name, and keeps the listed records with another phone |
| `IndexedAgenda.ConsistentSameRecords` | src/lib.rs:11-15 | under the invariant, the list, the name index's values and the phone index's values are the same set of records |
| `IndexedAgenda.AddPreservesConsistency` | src/lib.rs:26-30 | adding a record whose name and phone are both unindexed keeps the invariant |
| `IndexedAgenda.RemoveByNamePreservesConsistency` | src/lib.rs:45-53 | removal by name keeps the invariant |
| `IndexedAgenda.RemoveByPhonePreservesConsistency` | src/lib.rs:55-63 | removal by phone keeps the invariant |
| `IndexedAgenda.RemoveByNameMatchesRemoveByPhone` | src/lib.rs:45-63 | under the invariant, removing a record by its name and by its phone yield the same agenda and the same record |
| `IndexedAgenda.AddThenRemoveByName` | src/lib.rs:83-96 | under the invariant, adding a fresh record and removing its name restores the original agenda exactly and returns the record |
| `IndexedAgenda.AddThenRemoveByPhone` | src/lib.rs:98-111 | the same round trip through removal by phone |
| `IndexedAgenda.AddNameCollision` | src/lib.rs:27-29 | adding under a taken name with another phone: the new record wins the name, the old one stays listed and still owns its phone, and the invariant no longer holds |
| `IndexedAgenda.CollisionThenRemoveLeavesStalePhone` | src/lib.rs:46-48 | after such a collision, removing the name drops the old record from the list but leaves its phone indexed to it |
| `IndexedAgenda.AddThenRemoveLookups` | tests/integration_test.rs:13-20 | from any agenda, adding a record and removing its name returns that record and leaves neither its name nor its phone indexed |
| `IndexedAgenda.IntegrationScenario` | tests/integration_test.rs:3-21 | the integration test's add, find by name, find by phone, remove and find-nothing sequence |
| `StoredAgenda.Load` | src/contacts.rs:45-54 | a missing file loads as the empty list, a file holding records loads as those records, and only an unopenable or unparsable file is an error |
| `StoredAgenda.Save` | src/contacts.rs:38-43 | after a save the store holds the list, and loading it yields the list back |
| `StoredAgenda.New` | src/contacts.rs:19-22 | the agenda starts from the stored records when loading succeeds and from the empty list when the file is missing or loading fails |
| `StoredAgenda.Add` | src/contacts.rs:24-27 | the list grows by one, the old list is a prefix and the record is last, and the store holds the new list |
| `StoredAgenda.ListAll` | src/contacts.rs:29-31 | returns the list element for element |
| `StoredAgenda.RemoveByName` | src/contacts.rs:33-36 | keeps exactly the records with another name, with their multiplicities, in order; the store holds the result |
| `StoredAgenda.ReopenAfterSave` | src/contacts.rs:38-54 | opening a store that was just saved reproduces the agenda |
| `StoredAgenda.ReopenAfterMutation` | src/contacts.rs:24-36 | after an add or a removal, reopening the store reproduces the agenda |
| `StoredAgenda.RemoveAbsentName` | src/contacts.rs:33-36 | removing a name nobody has keeps the list but still rewrites the store |
| `StoredAgenda.RemoveByNameIdempotent` | src/contacts.rs:34 | removing the same name twice is removing it once |
| `StoredAgenda.AddThenRemove` | src/contacts.rs:24-36 | adding a record under a name not yet listed and removing that name restores the list |
| `Text.Trim` | src/ui.rs:58 | the result is a slice of the input such that everything before and after it is whitespace and it neither starts nor ends with whitespace; it is empty iff the input is all whitespace |
| `Text.BlankIffAllWhitespace` | src/ui.rs:58 | a name is blank after trimming iff every character is whitespace |
| `Phone.IsPhoneCorrect` | src/ui.rs:60-61 | the hand-written recogniser accepts exactly the strings some choice of the regex's options spells |
| `Phone.PatternBounds` | src/ui.rs:60 | an accepted phone has 10 to 15 characters, of which 10 or 11 are digits |
| `Form.Toggle` | src/ui.rs:132-135 | the toggle always switches to the other view |
| `Form.ToggleInvolution` | src/main.rs:109-112 | toggling twice restores the view |
| `Form.OptionalField` | src/ui.rs:38-47 | an empty field becomes absent, and any other field is kept verbatim |
| `Form.ToContact` | src/ui.rs:35-48 | name and phone are copied verbatim; email and address are absent iff their field is empty, and otherwise hold the field untrimmed |
| `Form.Displayed` | src/ui.rs:155-158 | a record is shown with its name and phone, and an absent optional field is shown as the empty string |
| `Form.DisplayedToContact` | src/ui.rs:35-48 | displaying the record built from a form shows the form again |
| `Form.ToContactDisplayed` | src/ui.rs:155-158 | rebuilding a displayed record gives it back iff neither optional field is present but empty |
| `Form.ValidInput` | src/ui.rs:57-64 | true iff the name is not blank and the trimmed phone is in the regex's language; an accepted input has a non-whitespace name character and a trimmed phone of 10 to 15 characters with 10 or 11 digits |
| `ListApp.New` | src/ui.rs:22-32 | empty fields and query, JSON view, and the agenda opened on the store (stored records, or empty), with the store itself unchanged |
| `ListApp.AddContact` | src/ui.rs:34-55 | the record built from the fields is appended without any check, the store holds the list, the four fields are empty, and view and query are kept |
| `ListApp.Validate` | src/ui.rs:57-64 | non-blank name and a trimmed phone in the regex's language |
| `ListApp.PressAdd` | src/ui.rs:113-118 | with invalid input the button changes nothing; otherwise it is exactly `AddContact`: the record built from the fields is appended and saved, view and query are kept, the fields are cleared, and that record has a non-blank name and an accepted phone |
| `ListApp.Search` | src/ui.rs:66-73 | exactly the listed records whose lowercased name contains the lowercased query, with their multiplicities, in list order, and never more than the list |
| `ListApp.SearchEmptyQuery` | src/ui.rs:66-73 | an empty query lists every record |
| `ListApp.ToggleView` | src/ui.rs:130-136 | only the view changes, and it changes |
| `ListApp.ToggleViewTwice` | src/ui.rs:132-135 | pressing the toggle twice restores the application state |
| `IndexedApp.New` | src/main.rs:20-29 | empty fields, JSON view, and an agenda that finds and lists nothing |
| `IndexedApp.AddContact` | src/main.rs:31-52 | the agenda is exactly the indexed add of the built record: both lookups of the typed name and phone return it, every other name and phone keeps its lookup, it is listed last, and the fields are empty |
| `IndexedApp.Validate` | src/main.rs:54-61 | the same rule as the ui.rs form |
| `IndexedApp.PressAdd` | src/main.rs:98-102 | with invalid input nothing changes; otherwise it is exactly `AddContact`: the built record is found by name and by phone and listed last, the view is kept, the fields are cleared, and the record has a non-blank name and an accepted phone |
| `IndexedApp.ToggleView` | src/main.rs:108-113 | only the view changes, and it changes |
| `IndexedApp.ToggleViewTwice` | src/main.rs:109-112 | pressing the toggle twice restores the application state |

## Left out

- Rendering and layout in `update` (src/ui.rs:77-193, src/main.rs:65-166): widgets, sizes and colours are presentation only. The add button's enabling and the toggle button are modelled as `PressAdd` and `ToggleView`.
- The delete button inside the listing (src/ui.rs:174-182, src/main.rs:147-155): it only calls `remover_por_nome`, which is modelled. Which row was clicked is a rendering matter.
- `main()` and the window setup (src/main.rs:169-183): process start-up.
- The JSON text and the file system behind `salvar_em_arquivo` and `carregar_de_arquivo`: the store is reduced to its loadable contents, and the file name `contatos.json` is implicit.
- The `expect` panics when a save fails (src/contacts.rs:26, 35): I/O error paths. A save is modelled as always succeeding.
- The store is an ordinary field of the agenda value rather than ghost state. It stands for the contents of the JSON file that `New` reads and every mutation rewrites.
- Hashing in `HashMap`: Dafny maps are used.
- The regex engine: the one pattern in use is decided by a hand-written recogniser proved equal to the pattern's language.
- Phone.IsPhone: `\d` is restricted to the ASCII digits 0-9. Rust's Unicode-aware `\d` also accepts other decimal digits. `\s` and `trim` use the full Unicode White_Space set.
- ListApp.Search: Rust's `to_lowercase` is a parameter `lower`. `SearchEmptyQuery` needs `lower("") == ""`, which Rust's function satisfies.
- IndexedAgenda.ListAll: `mostrar_todos_nomes` in src/lib.rs does not compile as written. Its intended meaning, the list in order, is modelled instead.
