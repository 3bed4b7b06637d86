/**
 * Facts that relate the two pages: they address the same conversation for
 * every pairing, and what one page writes is what the other page renders.
 */
module Convergence {
  import opened Store
  import opened Student
  import opened Teacher

  /**
   * The student resolves the chat room `s_t` exactly when the teacher `t`
   * lists `s` among their students.
   */
  lemma PairingAgreement(pairs: seq<(Uid, Uid)>, s: Uid, t: Uid)
    requires UniqueKeys(pairs)
    ensures ResolveChat(pairs, s) == Some(ChatRoomId(s, t)) <==> s in StudentsOf(pairs, t)
  {
  }

  /**
   * A student who is paired with `t` and has written something appears on
   * the teacher's page with a section built from the very thread the
   * student's own page lists.
   */
  lemma TeacherSeesStudentThread(names: map<Uid, string>, pairs: seq<(Uid, Uid)>,
                                 chats: map<ChatId, Thread>, s: Uid, t: Uid)
    requires UniqueKeys(pairs)
    requires ResolveChat(pairs, s) == Some(ChatRoomId(s, t))
    requires Messages(chats, ChatRoomId(s, t)) != []
    ensures PostsView(names, pairs, chats, t).Some?
    ensures SectionFor(names, chats, s, t) in PostsView(names, pairs, chats, t).value
  {
  }

  /** Every section on the teacher's page is the conversation of a student paired with that teacher. */
  lemma TeacherSectionsArePaired(names: map<Uid, string>, pairs: seq<(Uid, Uid)>,
                                 chats: map<ChatId, Thread>, t: Uid, sec: Section)
    requires UniqueKeys(pairs)
    requires PostsView(names, pairs, chats, t).Some?
    requires sec in PostsView(names, pairs, chats, t).value
    ensures exists s :: ResolveChat(pairs, s) == Some(ChatRoomId(s, t)) &&
              sec.items == TeacherItems(ChatRoomId(s, t), Messages(chats, ChatRoomId(s, t)))
  {
    var students := StudentsOf(pairs, t);
    SectionsSound(names, chats, students, t, sec);
    var s :| s in students && Messages(chats, ChatRoomId(s, t)) != [] &&
             sec == SectionFor(names, chats, s, t);
    PairingAgreement(pairs, s, t);
  }

  /**
   * The teacher's page holds exactly one section per paired student who has
   * messages: the sections follow a list of such students without repetition,
   * and section `i` renders the `i`-th of them.
   */
  lemma OneSectionPerStudent(names: map<Uid, string>, pairs: seq<(Uid, Uid)>,
                             chats: map<ChatId, Thread>, t: Uid)
    requires UniqueKeys(pairs)
    ensures PostsView(names, pairs, chats, t).Some? ==>
              var w := WithMessages(chats, StudentsOf(pairs, t), t);
              var r := PostsView(names, pairs, chats, t).value;
              && |r| == |w|
              && (forall i, j :: 0 <= i < j < |w| ==> w[i] != w[j])
              && (forall s :: s in w <==> ResolveChat(pairs, s) == Some(ChatRoomId(s, t)) && Messages(chats, ChatRoomId(s, t)) != [])
              && (forall i :: 0 <= i < |r| ==> r[i] == SectionFor(names, chats, w[i], t))
  {
    StudentsOfDistinct(pairs, t);
    WithMessagesDistinct(chats, StudentsOf(pairs, t), t);
    forall s {
      PairingAgreement(pairs, s, t);
    }
  }

  /**
   * After a diary submission the new message is stored under its key with
   * every field as written, both pages list it first, the teacher's copy
   * carries an advice input addressed to it, and other conversations are untouched.
   */
  lemma SubmitRoundTrip(chats: map<ChatId, Thread>, c: ChatId, key: MsgId, form: DiaryForm, now: string, other: ChatId)
    requires key !in Keys(Messages(chats, c))
    requires other != c
    ensures var chats' := chats[c := Messages(chats, c) + [(key, NewEntry(form, now))]];
            && Lookup(Messages(chats', c), key) == Some(NewEntry(form, now))
            && DiaryItems(Messages(chats', c))[0] == RenderDiaryEntry(NewEntry(form, now))
            && DiaryItems(Messages(chats', c))[0].advice == None
            && TeacherItems(c, Messages(chats', c))[0].input == Some(AdviceInput(c, key))
            && TeacherItems(c, Messages(chats', c))[0].adviceLine == Some(NoAdviceYet)
            && Messages(chats', other) == Messages(chats, other)
  {
  }

  /**
   * Advice written to a student's message is shown by both pages, the
   * message keeps its fields and its advice input.
   */
  lemma AdviceRoundTrip(data: Thread, c: ChatId, k: MsgId, e: Entry, text: string)
    requires Lookup(data, k) == Some(e)
    requires e.sender == Some(StudentSender)
    requires text != ""
    ensures Lookup(MergeAdvice(data, k, text), k).Some?
    ensures var e' := Lookup(MergeAdvice(data, k, text), k).value;
            && FieldsOf(e') == FieldsOf(e)
            && RenderDiaryEntry(e').advice == Some(text)
            && RenderTeacherEntry(c, k, e').adviceLine == Some(text)
            && RenderTeacherEntry(c, k, e').input == Some(AdviceInput(c, k))
  {
    MergeAdviceAt(data, k, text);
  }
}
