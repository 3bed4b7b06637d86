# nihongo_note: pairing, conversation addressing and thread rendering

nihongo_note connects students and teachers through a hosted realtime
database. A student writes diary entries (date, a word, a sentence, kanji, a
memo); the teacher paired with the student reads them newest first and
attaches advice to each one. This project models the logic both browser pages
run on top of the database:

- the pairing directory `pairs/<studentUid> = teacherUid`, read by the student
  with a keyed lookup and by the teacher with a filter on the value;
- the chat room id `studentUid + "_" + teacherUid` that both pages compute on
  their own to meet at `chats/<chatId>/messages`;
- the two writes: a student entry appended under a fresh push key, and a
  teacher's advice merged into one field of an existing message;
- the two renderings: the student's diary list and the teacher's sections,
  both in reverse store order, with their rules for advice lines, placeholders
  and the advice input;
- display-name fallbacks (`生徒`, `講師`).

Files and modules:

- `store.dfy`, module `Store`: the database tree (`Database` class with the
  `names`, `pairs` and `chats` nodes), message nodes (`Entry`, every field
  optional because snapshots carry no schema), keyed lists (`Keys`, `Lookup`,
  `UniqueKeys`), the chat room id, display names, and the advice merge
  (`MergeAdvice`) with its lemmas.
- `student.dfy`, module `Student`: `js/student.js`.
- `teacher.dfy`, module `Teacher`: `js/teacher.js`.
- `convergence.dfy`, module `Convergence`: lemmas that relate the two pages.

Modelling choices:

- A keyed node with children is a sequence of `(key, value)` pairs in the
  store's key order, with unique keys. This covers `Object.entries`,
  `Object.values` and keyed reads.
- A node that does not exist and a node with no children are the same thing,
  because the database keeps no empty nodes. So "`pairs` exists" means
  `pairs != []`, and "`data` is truthy" means the thread is non-empty.
- A push key is not in the conversation yet and sorts after every existing
  key. `Database.Push` takes the key as a parameter and requires that it is
  new, and the new message becomes the last child.
- The pages' DOM output is represented by records: `DiaryItem` on the student
  page, and `TeacherItem` and `Section` on the teacher page. A field that the
  node lacks stays `None`; the script would print `undefined` for it.

Behaviour of the code worth noting:

- The advice write does not check that the message exists. A merge update of
  a missing message creates a node that holds only `advice`. It does not fail
  with "not found".
- The student page shows advice only when it is truthy (present and
  non-empty). The teacher page uses `??`, so an empty advice shows as empty
  text.
- The teacher page shows the advice input on every student entry, including
  one that already has advice. A teacher entry without advice shows
  `（内容なし）`. An entry with any other sender shows no advice line at all.

## Model

| member | source | states |
|---|---|---|
| `Store.Lookup` | js/student.js:34-39 | the keyed read is absent exactly when the key is missing, and a found value is paired with the key in the node |
| `Store.LookupUnique` | js/student.js:34-39 | with unique keys, the keyed read returns `v` exactly when `(k, v)` is a child |
| `Store.AppendFreshKey` | js/student.js:56-57 | appending under a key not yet present keeps the keys unique |
| `Store.LookupAfterFreshAppend` | js/student.js:56-57 | a child appended under a fresh key is found by a later keyed read with its value intact |
| `Store.Messages` | js/teacher.js:96-98 | reading a conversation that does not exist gives no messages; otherwise it gives the stored thread |
| `Store.ChatRoomId` | js/student.js:40 | the id is the student uid, then `_`, then the teacher uid, each recoverable by position |
| `Store.ChatRoomIdInjective` | js/teacher.js:95 | for a fixed teacher, equal chat ids imply equal student uids |
| `Store.ChatRoomIdDeterminesPair` | js/teacher.js:95 | when student uids contain no `_`, the chat id determines both the student and the teacher |
| `Store.ChatRoomIdAmbiguous` | js/student.js:40 | without that condition two different pairs share one chat id (`a_b`+`c` and `a`+`b_c`) |
| `Store.DisplayName` | js/student.js:29-30 | the stored name when the name node exists, else the page's default |
| `Store.Merged` | js/teacher.js:154-157 | after the merge the node's advice is the new text and every other field is as before; a missing node becomes an advice-only node |
| `Store.MergeAdvice` | js/teacher.js:154-157 | the keys of the thread are unchanged when the message exists, and gain the message key when it does not |
| `Store.MergeAdviceAt` | js/teacher.js:154-157 | the updated message reads back as its earlier fields with the new advice |
| `Store.MergeAdviceElsewhere` | js/teacher.js:154-157 | every other message of the thread reads back unchanged |
| `Store.MergeAdviceLastWriteWins` | js/teacher.js:154-157 | a second advice replaces the first: writing `x` then `y` equals writing `y` |
| `Store.MergeAdviceUniqueKeys` | js/teacher.js:154-157 | the merge keeps the thread's keys unique |
| `Store.Database.Push` | js/student.js:56-57 | the conversation grows by exactly the new message at the end; other conversations, names and pairs are unchanged |
| `Store.Database.UpdateAdvice` | js/teacher.js:154-157 | only conversation `c` changes, and it changes by the advice merge; names and pairs are unchanged |
| `Student.ResolveChat` | js/student.js:34-40 | no chat room when the student has no pair; otherwise the room `uid_t` for a teacher `t` the student is paired with |
| `Student.NewEntry` | js/student.js:47-55 | the new message has sender `student`, no advice, the five form values and the timestamp |
| `Student.RenderDiaryEntry` | js/student.js:74-82 | the five fields are shown as stored; the advice block appears exactly when the advice is present and non-empty, and shows that advice |
| `Student.DiaryItems` | js/student.js:70-71 | one item per message; item `i` renders message `n-1-i`, so the list is the store order reversed |
| `Student.DiaryItemsAppend` | js/student.js:56-60 | after an append, the reloaded list is the new message's item followed by the old list |
| `Student.LoadDiaryEntries` | js/student.js:64-86 | the list built by the loop is the reversed rendering of the conversation, and it is empty when there are no messages |
| `Student.OpenDiary` | js/student.js:25-41 | the greeting name falls back to `生徒`; with no pair nothing is addressed or listed; otherwise the list is the rendering of room `uid_t` |
| `Student.SubmitDiary` | js/student.js:44-61 | the store gains exactly the new message, and the reloaded list shows it first, above the previous list |
| `Teacher.StudentsOf` | js/teacher.js:59-63 | a uid is listed exactly when the pairs map it to this teacher |
| `Teacher.StudentsOfDistinct` | js/teacher.js:78-82 | with unique pair keys, no student is listed twice |
| `Teacher.AdviceOr` | js/teacher.js:121-123 | the `??` operator: the advice when the field exists, even if it is empty, else the placeholder |
| `Teacher.RenderTeacherEntry` | js/teacher.js:107-133 | an advice input keyed by `(chatId, msgId)` exactly for `student` entries; an advice line exactly for `student` and `teacher` entries, showing the advice or `（まだありません）` / `（内容なし）` |
| `Teacher.TeacherItems` | js/teacher.js:104-106 | one item per message; item `i` renders message `n-1-i` with its own key |
| `Teacher.TeacherItemsAppend` | js/teacher.js:104-106 | a message appended to the thread is rendered first, above the earlier items |
| `Teacher.SectionOf` | js/teacher.js:88-100 | one pass of the per-student loop: no section exactly when the room `s_t` has no messages, otherwise the section headed by the student's name (falling back to `生徒`) rendering that room |
| `Teacher.WithMessages` | js/teacher.js:86-100 | a student is kept exactly when listed and their room has messages |
| `Teacher.WithMessagesOrdered` | js/teacher.js:86-100 | any two kept students appear in the same order in the list they came from |
| `Teacher.WithMessagesDistinct` | js/teacher.js:86-100 | a list without repetitions yields kept students without repetitions |
| `Teacher.Sections` | js/teacher.js:86-139 | one section per kept student: section `i` shows the `i`-th kept student's name and conversation, and no section is empty |
| `Teacher.SectionsComplete` | js/teacher.js:87-100 | every listed student with messages gets a section with their name and their conversation |
| `Teacher.SectionsSound` | js/teacher.js:100-137 | every section belongs to a listed student with messages and renders that student's conversation |
| `Teacher.PostsView` | js/teacher.js:72-85 | the early return (`None`) happens exactly when the pairs node does not exist |
| `Teacher.RenderThread` | js/teacher.js:104-135 | the loop renders the conversation in reverse store order |
| `Teacher.GetStudentPosts` | js/teacher.js:72-140 | the posts built by the loops are the sections of the assigned students, or nothing when pairs do not exist |
| `Teacher.OpenDashboard` | js/teacher.js:36-68 | the greeting name falls back to `講師`, and the posts are those of `getStudentPosts` |
| `Teacher.SendAdvice` | js/teacher.js:151-157 | an empty text leaves the store unchanged; otherwise only conversation `c` changes, by the advice merge on message `k` |
| `Convergence.PairingAgreement` | js/teacher.js:59-63 | the student addresses room `s_t` exactly when teacher `t` lists `s`, so both pages compute the same id |
| `Convergence.TeacherSeesStudentThread` | js/teacher.js:87-100 | a student who is paired with `t` and has messages gets a section on `t`'s page, built from the thread the student's page lists |
| `Convergence.TeacherSectionsArePaired` | js/teacher.js:78-100 | every section on a teacher's page renders the room of a student paired with that teacher |
| `Convergence.OneSectionPerStudent` | js/teacher.js:76-100 | with unique pair keys, the teacher's page holds exactly one section for each student who is paired with the teacher and has messages, and no others |
| `Convergence.SubmitRoundTrip` | js/student.js:47-60 | after a submit, the message reads back unchanged under its key; both pages show it first, without advice; the teacher's copy has its advice input and `（まだありません）`; other rooms are untouched |
| `Convergence.AdviceRoundTrip` | js/teacher.js:151-157 | advice written to a student message keeps its fields and its input, and both pages show the advice text |

## Left out

- Firebase initialisation, the configuration import and obtaining the auth and database handles (js/student.js:1-16, js/teacher.js:1-26): these are calls into a foreign library.
- The sign-in redirect and the logout buttons (js/student.js:19-23, js/student.js:93-99, js/teacher.js:29-34, js/teacher.js:164-170): these are navigation driven by the auth provider.
- Asynchrony and network round trips. Every read and write is a synchronous operation on the in-memory store. Concurrent writers are not modelled; last-write-wins shows only as `MergeAdviceLastWriteWins`.
- Generating push ids (js/student.js:56). The key is a parameter, and `Database.Push` requires that it is new to the conversation.
- The client clock (js/student.js:54). The timestamp is an opaque string parameter.
- DOM and markup: `innerHTML` strings, the greeting sentences around the names, `form.reset()`, clearing the advice input, `alert`, `console.log`. Output is abstract records. The missing HTML escaping is not modelled.
- Finding the advice input in the click handler (js/teacher.js:145-151). The handler's `chatId`, `msgId` and input text are parameters of `SendAdvice`.
- The first `pairs` read in the teacher's sign-in callback (js/teacher.js:50-65). The model keeps only its effect: with no pairs, nothing is rendered. The student list computed there is only logged.
- Snapshot values other than strings. Message fields and pair values are strings or absent. A non-string pair value, read at js/student.js:39 and compared with `===` at js/teacher.js:61, could make the two pages disagree about a pairing; the model does not represent that.
- Store.MergeAdvice: a node created for a missing message is placed last. The database would place it at its key's position; this case cannot arise from the page's own buttons.
