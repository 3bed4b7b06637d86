/**
 * The teacher page: find the assigned students, render each student's
 * conversation newest first with an advice line and, for student entries,
 * an advice input; write submitted advice into the message.
 */
module Teacher {
  import opened Store

  /** Greeting name used when the teacher's users/<uid>/name does not exist. */
  const DefaultTeacherName := "講師"

  /** Shown in place of a missing advice on a student's entry. */
  const NoAdviceYet := "（まだありません）"

  /** Shown in place of a missing advice on a teacher's entry. */
  const NoContent := "（内容なし）"

  /** The advice text box and its send button, both tagged with the same message address. */
  datatype AdviceInput = AdviceInput(chatId: ChatId, msgId: MsgId)

  /** One rendered message: the fields, the advice line if any, the advice input if any. */
  datatype TeacherItem = TeacherItem(fields: Fields, adviceLine: Option<string>, input: Option<AdviceInput>)

  /** The block rendered for one student: a heading with the name, then the messages. */
  datatype Section = Section(studentName: string, items: seq<TeacherItem>)

  /** The students assigned to teacher `t`: the pairs filtered on their value, keys kept in order. */
  function StudentsOf(pairs: seq<(Uid, Uid)>, t: Uid): (r: seq<Uid>)
    ensures forall s :: s in r <==> (s, t) in pairs
    ensures |r| <= |pairs|
  {
    if pairs == [] then []
    else (if pairs[0].1 == t then [pairs[0].0] else []) + StudentsOf(pairs[1..], t)
  }

  /** Over a directory with unique keys, no student is listed twice. */
  lemma {:induction false} StudentsOfDistinct(pairs: seq<(Uid, Uid)>, t: Uid)
    requires UniqueKeys(pairs)
    ensures forall i, j :: 0 <= i < j < |StudentsOf(pairs, t)| ==> StudentsOf(pairs, t)[i] != StudentsOf(pairs, t)[j]
  {
    if pairs != [] {
      assert UniqueKeys(pairs[1..]);
      StudentsOfDistinct(pairs[1..], t);
      var rest := StudentsOf(pairs[1..], t);
      if pairs[0].1 == t {
        if pairs[0].0 in rest {
          assert false;
        }
        assert StudentsOf(pairs, t) == [pairs[0].0] + rest;
      } else {
        assert StudentsOf(pairs, t) == rest;
      }
    }
  }

  /** `advice ?? placeholder`: the advice when the field exists, even if empty. */
  function AdviceOr(advice: Option<string>, placeholder: string): (s: string)
    ensures advice.Some? ==> s == advice.value
    ensures advice.None? ==> s == placeholder
  {
    match advice
    case Some(a) => a
    case None => placeholder
  }

  /** One message as the teacher sees it in chat room `c`. */
  function RenderTeacherEntry(c: ChatId, k: MsgId, e: Entry): (item: TeacherItem)
    ensures item.fields == FieldsOf(e)
    ensures item.input.Some? <==> e.sender == Some(StudentSender)
    ensures item.input.Some? ==> item.input.value == AdviceInput(c, k)
    ensures item.adviceLine.Some? <==> e.sender == Some(StudentSender) || e.sender == Some(TeacherSender)
    ensures item.adviceLine.Some? && e.advice.Some? ==> item.adviceLine == e.advice
    ensures item.adviceLine.Some? && e.advice.None? ==>
              item.adviceLine.value == if e.sender == Some(StudentSender) then NoAdviceYet else NoContent
  {
    if e.sender == Some(StudentSender) then
      TeacherItem(FieldsOf(e), Some(AdviceOr(e.advice, NoAdviceYet)), Some(AdviceInput(c, k)))
    else if e.sender == Some(TeacherSender) then
      TeacherItem(FieldsOf(e), Some(AdviceOr(e.advice, NoContent)), None)
    else
      TeacherItem(FieldsOf(e), None, None)
  }

  /** A conversation as the teacher sees it: one item per message, last stored first. */
  function TeacherItems(c: ChatId, data: Thread): (r: seq<TeacherItem>)
    ensures |r| == |data|
    ensures forall i :: 0 <= i < |data| ==>
              r[i] == RenderTeacherEntry(c, data[|data| - 1 - i].0, data[|data| - 1 - i].1)
  {
    if data == [] then []
    else
      var last := data[|data| - 1];
      [RenderTeacherEntry(c, last.0, last.1)] + TeacherItems(c, data[..|data| - 1])
  }

  /** A message appended to the thread is rendered first, above the earlier ones. */
  lemma TeacherItemsAppend(c: ChatId, data: Thread, key: MsgId, e: Entry)
    ensures TeacherItems(c, data + [(key, e)]) == [RenderTeacherEntry(c, key, e)] + TeacherItems(c, data)
  {
  }

  /** The section the page shows for student `s`: the name heading and the conversation. */
  function SectionFor(names: map<Uid, string>, chats: map<ChatId, Thread>, s: Uid, t: Uid): (sec: Section)
  {
    Section(DisplayName(names, s, DefaultStudentName), TeacherItems(ChatRoomId(s, t), Messages(chats, ChatRoomId(s, t))))
  }

  /** One pass of the per-student loop: a section only when the student's conversation has messages. */
  function SectionOf(names: map<Uid, string>, chats: map<ChatId, Thread>, s: Uid, t: Uid): (r: seq<Section>)
    ensures r == [] <==> Messages(chats, ChatRoomId(s, t)) == []
    ensures r != [] ==> r == [SectionFor(names, chats, s, t)]
  {
    if Messages(chats, ChatRoomId(s, t)) == [] then [] else [SectionFor(names, chats, s, t)]
  }

  /** The listed students whose conversation has messages, in list order. */
  function WithMessages(chats: map<ChatId, Thread>, students: seq<Uid>, t: Uid): (w: seq<Uid>)
    ensures |w| <= |students|
    ensures forall s :: s in w <==> s in students && Messages(chats, ChatRoomId(s, t)) != []
  {
    if students == [] then []
    else
      var s := students[|students| - 1];
      assert students == students[..|students| - 1] + [s];
      WithMessages(chats, students[..|students| - 1], t) + (if Messages(chats, ChatRoomId(s, t)) != [] then [s] else [])
  }

  /** `x` occurs in `students` at an earlier position than `y`. */
  ghost predicate Before(students: seq<Uid>, x: Uid, y: Uid)
  {
    exists a, b :: 0 <= a < b < |students| && students[a] == x && students[b] == y
  }

  /** An order in a list survives appending to it. */
  lemma BeforeAppend(init: seq<Uid>, s: Uid, x: Uid, y: Uid)
    requires Before(init, x, y)
    ensures Before(init + [s], x, y)
  {
    var a, b :| 0 <= a < b < |init| && init[a] == x && init[b] == y;
    assert (init + [s])[a] == x && (init + [s])[b] == y;
  }

  /** Every element of a list comes before an element appended to it. */
  lemma BeforeLast(init: seq<Uid>, s: Uid, x: Uid)
    requires x in init
    ensures Before(init + [s], x, s)
  {
    var a :| 0 <= a < |init| && init[a] == x;
    assert (init + [s])[a] == x && (init + [s])[|init|] == s;
  }

  /** The kept students appear in the order of the list they were taken from. */
  lemma {:induction false} WithMessagesOrdered(chats: map<ChatId, Thread>, students: seq<Uid>, t: Uid)
    ensures forall i, j :: 0 <= i < j < |WithMessages(chats, students, t)| ==>
              Before(students, WithMessages(chats, students, t)[i], WithMessages(chats, students, t)[j])
  {
    if students != [] {
      var n := |students|;
      var init, s := students[..n - 1], students[n - 1];
      assert students == init + [s];
      var wi := WithMessages(chats, init, t);
      var w := WithMessages(chats, students, t);
      assert w == wi + (if Messages(chats, ChatRoomId(s, t)) != [] then [s] else []);
      WithMessagesOrdered(chats, init, t);
      forall i, j | 0 <= i < j < |w|
        ensures Before(students, w[i], w[j])
      {
        if j < |wi| {
          BeforeAppend(init, s, wi[i], wi[j]);
        } else {
          assert wi[i] in wi;
          BeforeLast(init, s, wi[i]);
        }
      }
    }
  }

  /** A list without repetitions keeps none: no student is kept twice. */
  lemma {:induction false} WithMessagesDistinct(chats: map<ChatId, Thread>, students: seq<Uid>, t: Uid)
    requires forall i, j :: 0 <= i < j < |students| ==> students[i] != students[j]
    ensures forall i, j :: 0 <= i < j < |WithMessages(chats, students, t)| ==>
              WithMessages(chats, students, t)[i] != WithMessages(chats, students, t)[j]
  {
    if students != [] {
      var n := |students|;
      var init, s := students[..n - 1], students[n - 1];
      var wi := WithMessages(chats, init, t);
      var w := WithMessages(chats, students, t);
      assert w == wi + (if Messages(chats, ChatRoomId(s, t)) != [] then [s] else []);
      WithMessagesDistinct(chats, init, t);
      assert forall i, j :: 0 <= i < j < |wi| ==> wi[i] != wi[j];
      if s in wi {
        assert false;
      }
    }
  }

  /**
   * The sections for a list of students: exactly one per listed student with
   * messages, in list order, and none for the others.
   */
  function Sections(names: map<Uid, string>, chats: map<ChatId, Thread>, students: seq<Uid>, t: Uid)
    : (r: seq<Section>)
    ensures |r| == |WithMessages(chats, students, t)|
    ensures forall i :: 0 <= i < |r| ==> r[i] == SectionFor(names, chats, WithMessages(chats, students, t)[i], t)
    ensures forall sec :: sec in r ==> sec.items != []
  {
    if students == [] then []
    else Sections(names, chats, students[..|students| - 1], t) + SectionOf(names, chats, students[|students| - 1], t)
  }

  /** One more student processed: the sections grow by that student's pass. */
  lemma SectionsStep(names: map<Uid, string>, chats: map<ChatId, Thread>, students: seq<Uid>, t: Uid, i: nat)
    requires i < |students|
    ensures Sections(names, chats, students[..i + 1], t)
         == Sections(names, chats, students[..i], t) + SectionOf(names, chats, students[i], t)
  {
    assert students[..i + 1][..i] == students[..i];
  }

  /** Every listed student with messages gets a section built from their conversation. */
  lemma SectionsComplete(names: map<Uid, string>, chats: map<ChatId, Thread>,
                          students: seq<Uid>, t: Uid, s: Uid)
    requires s in students
    requires Messages(chats, ChatRoomId(s, t)) != []
    ensures SectionFor(names, chats, s, t) in Sections(names, chats, students, t)
  {
  }

  /** Every section belongs to a listed student with messages and shows their conversation. */
  lemma SectionsSound(names: map<Uid, string>, chats: map<ChatId, Thread>,
                       students: seq<Uid>, t: Uid, sec: Section)
    requires sec in Sections(names, chats, students, t)
    ensures exists s :: s in students && Messages(chats, ChatRoomId(s, t)) != [] &&
              sec == SectionFor(names, chats, s, t)
  {
  }

  /**
   * What `getStudentPosts` renders: the early return (None) when the pairs
   * node does not exist (the tree keeps no empty nodes), otherwise one
   * section per assigned student who has messages.
   */
  function PostsView(names: map<Uid, string>, pairs: seq<(Uid, Uid)>, chats: map<ChatId, Thread>, t: Uid)
    : (r: Option<seq<Section>>)
    ensures r.None? <==> pairs == []
  {
    if pairs == [] then None else Some(Sections(names, chats, StudentsOf(pairs, t), t))
  }

  /** The `forEach` over the reversed entries of one conversation. */
  method RenderThread(c: ChatId, data: Thread) returns (items: seq<TeacherItem>)
    ensures items == TeacherItems(c, data)
  {
    items := [];
    var n := |data|;
    for i := 0 to n
      invariant |items| == i
      invariant forall k :: 0 <= k < i ==> items[k] == RenderTeacherEntry(c, data[n - 1 - k].0, data[n - 1 - k].1)
    {
      var (msgId, msg) := data[n - 1 - i];
      items := items + [RenderTeacherEntry(c, msgId, msg)];
    }
  }

  /** `getStudentPosts`: read the pairs, then render a section per assigned student. */
  method GetStudentPosts(db: Database, t: Uid) returns (posts: Option<seq<Section>>)
    ensures posts == PostsView(db.names, db.pairs, db.chats, t)
  {
    if db.pairs == [] {
      return None;
    }
    var students := StudentsOf(db.pairs, t);
    var sections: seq<Section> := [];
    for i := 0 to |students|
      invariant sections == Sections(db.names, db.chats, students[..i], t)
    {
      var s := students[i];
      var name := DisplayName(db.names, s, DefaultStudentName);
      var c := ChatRoomId(s, t);
      var data := Messages(db.chats, c);
      ghost var pass := SectionOf(db.names, db.chats, s, t);
      if data != [] {
        var items := RenderThread(c, data);
        assert pass == [Section(name, items)];
        sections := sections + [Section(name, items)];
      } else {
        assert pass == [];
      }
      SectionsStep(db.names, db.chats, students, t, i);
    }
    assert students[..|students|] == students;
    posts := Some(sections);
  }

  /** The page after sign-in: the greeting name and the rendered posts, if any. */
  method OpenDashboard(db: Database, t: Uid) returns (name: string, posts: Option<seq<Section>>)
    ensures name == DisplayName(db.names, t, DefaultTeacherName)
    ensures posts == PostsView(db.names, db.pairs, db.chats, t)
  {
    name := DisplayName(db.names, t, DefaultTeacherName);
    if db.pairs == [] {
      return name, None;
    }
    posts := GetStudentPosts(db, t);
  }

  /**
   * The click handler of a send button: an empty text is not sent; otherwise
   * only the advice field of chats/<c>/messages/<k> is written.
   */
  method SendAdvice(db: Database, c: ChatId, k: MsgId, text: string)
    requires db.Valid()
    modifies db
    ensures db.Valid()
    ensures text == "" ==> db.chats == old(db.chats)
    ensures text != "" ==> db.chats == old(db.chats)[c := MergeAdvice(old(Messages(db.chats, c)), k, text)]
    ensures db.names == old(db.names) && db.pairs == old(db.pairs)
  {
    if text == "" {
      return;
    }
    db.UpdateAdvice(c, k, text);
  }
}
