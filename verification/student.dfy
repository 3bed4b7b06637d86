/**
 * The student page: resolve the assigned teacher, address the shared
 * conversation, submit diary entries and list them newest first.
 */
module Student {
  import opened Store

  /** The values of the diary form's five inputs (always strings). */
  datatype DiaryForm = DiaryForm(date: string, kotoba: string, bun: string, kanji: string, memo: string)

  /** One entry of the student's diary list; `advice` is the advice block, if shown. */
  datatype DiaryItem = DiaryItem(fields: Fields, advice: Option<string>)

  /**
   * The teacher a student is paired with, read from pairs/<uid>; None is the
   * "no teacher assigned" exit, after which nothing is addressed.
   */
  function ResolveChat(pairs: seq<(Uid, Uid)>, uid: Uid): (r: Option<ChatId>)
    ensures r.None? <==> uid !in Keys(pairs)
    ensures r.Some? ==> exists t :: (uid, t) in pairs && r.value == ChatRoomId(uid, t)
  {
    match Lookup(pairs, uid)
    case None => None
    case Some(t) => Some(ChatRoomId(uid, t))
  }

  /** The message node the submit handler writes. */
  function NewEntry(form: DiaryForm, now: string): (e: Entry)
    ensures e.sender == Some(StudentSender) && e.advice == None
    ensures FieldsOf(e) == Fields(Some(form.date), Some(form.kotoba), Some(form.bun), Some(form.kanji), Some(form.memo))
    ensures e.timestamp == Some(now)
  {
    Entry(Some(form.date), Some(form.kotoba), Some(form.bun), Some(form.kanji), Some(form.memo),
          Some(StudentSender), Some(now), None)
  }

  /** An entry as the student sees it: the advice block appears only for a non-empty advice. */
  function RenderDiaryEntry(e: Entry): (item: DiaryItem)
    ensures item.fields == FieldsOf(e)
    ensures item.advice.Some? <==> e.advice.Some? && e.advice.value != ""
    ensures item.advice.Some? ==> item.advice == e.advice
  {
    DiaryItem(FieldsOf(e), if e.advice.Some? && e.advice.value != "" then e.advice else None)
  }

  /** The diary list for a thread: one item per message, last stored first. */
  function DiaryItems(data: Thread): (r: seq<DiaryItem>)
    ensures |r| == |data|
    ensures forall i :: 0 <= i < |data| ==> r[i] == RenderDiaryEntry(data[|data| - 1 - i].1)
  {
    if data == [] then []
    else [RenderDiaryEntry(data[|data| - 1].1)] + DiaryItems(data[..|data| - 1])
  }

  /** A message appended to the thread is listed first, above the earlier ones. */
  lemma DiaryItemsAppend(data: Thread, key: MsgId, e: Entry)
    ensures DiaryItems(data + [(key, e)]) == [RenderDiaryEntry(e)] + DiaryItems(data)
  {
  }

  /** `loadDiaryEntries`: clear the list and append one item per stored message, newest first. */
  method LoadDiaryEntries(db: Database, c: ChatId) returns (list: seq<DiaryItem>)
    ensures list == DiaryItems(Messages(db.chats, c))
  {
    list := [];
    var data := Messages(db.chats, c);
    if data != [] {
      var n := |data|;
      for i := 0 to n
        invariant |list| == i
        invariant forall k :: 0 <= k < i ==> list[k] == RenderDiaryEntry(data[n - 1 - k].1)
      {
        list := list + [RenderDiaryEntry(data[n - 1 - i].1)];
      }
    }
  }

  /** The page after sign-in: greeting name, the addressed conversation, the initial list. */
  method OpenDiary(db: Database, uid: Uid) returns (name: string, chat: Option<ChatId>, list: seq<DiaryItem>)
    ensures name == DisplayName(db.names, uid, DefaultStudentName)
    ensures chat == ResolveChat(db.pairs, uid)
    ensures chat.None? ==> list == []
    ensures chat.Some? ==> list == DiaryItems(Messages(db.chats, chat.value))
  {
    name := DisplayName(db.names, uid, DefaultStudentName);
    list := [];
    chat := ResolveChat(db.pairs, uid);
    if chat.Some? {
      list := LoadDiaryEntries(db, chat.value);
    }
  }

  /**
   * The submit handler: write the form as a new message under a fresh push
   * key, then reload the list.
   */
  method SubmitDiary(db: Database, c: ChatId, form: DiaryForm, now: string, key: MsgId)
    returns (list: seq<DiaryItem>)
    requires db.Valid()
    requires key !in Keys(Messages(db.chats, c))
    modifies db
    ensures db.Valid()
    ensures db.chats == old(db.chats)[c := old(Messages(db.chats, c)) + [(key, NewEntry(form, now))]]
    ensures db.names == old(db.names) && db.pairs == old(db.pairs)
    ensures list == DiaryItems(Messages(db.chats, c))
    ensures list == [RenderDiaryEntry(NewEntry(form, now))] + old(DiaryItems(Messages(db.chats, c)))
  {
    ghost var before := Messages(db.chats, c);
    db.Push(c, key, NewEntry(form, now));
    list := LoadDiaryEntries(db, c);
    DiaryItemsAppend(before, key, NewEntry(form, now));
  }
}
