/**
 * The hosted realtime database as both pages see it: a tree with
 *   users/<uid>/name          display names,
 *   pairs/<studentUid>        the teacher uid assigned to a student,
 *   chats/<chatId>/messages   one conversation, a keyed list of message nodes.
 * Reads and writes are modelled as synchronous operations on in-memory values.
 */
module Store {

  datatype Option<T> = None | Some(value: T)

  type Uid = string
  type ChatId = string
  type MsgId = string

  /** Sender tags written into message nodes. */
  const StudentSender := "student"
  const TeacherSender := "teacher"

  /** Separator between the two uids of a chat room id. */
  const Separator := '_'

  /**
   * A message node. Snapshots carry no schema, so every field may be absent;
   * a field that is absent renders as the script's `undefined`.
   */
  datatype Entry = Entry(
    date: Option<string>,
    kotoba: Option<string>,
    bun: Option<string>,
    kanji: Option<string>,
    memo: Option<string>,
    sender: Option<string>,
    timestamp: Option<string>,
    advice: Option<string>)

  /** The five learning fields both pages render verbatim. */
  datatype Fields = Fields(
    date: Option<string>,
    kotoba: Option<string>,
    bun: Option<string>,
    kanji: Option<string>,
    memo: Option<string>)

  function FieldsOf(e: Entry): (f: Fields)
  {
    Fields(e.date, e.kotoba, e.bun, e.kanji, e.memo)
  }

  /** The children of chats/<chatId>/messages, in the store's key order. */
  type Thread = seq<(MsgId, Entry)>

  /** The keys of a keyed list, in order. */
  function Keys<K, V>(s: seq<(K, V)>): (r: seq<K>)
    ensures |r| == |s|
    ensures forall i :: 0 <= i < |s| ==> r[i] == s[i].0
  {
    seq(|s|, i requires 0 <= i < |s| => s[i].0)
  }

  /** A keyed list read from the tree: no key occurs twice. */
  ghost predicate UniqueKeys<K, V>(s: seq<(K, V)>)
  {
    forall i, j :: 0 <= i < j < |s| ==> s[i].0 != s[j].0
  }

  /** A keyed read of one child (`get(child(ref, key))`); absent when the key is missing. */
  function Lookup<K(==), V>(s: seq<(K, V)>, k: K): (r: Option<V>)
    ensures r.None? <==> k !in Keys(s)
    ensures r.Some? ==> (k, r.value) in s
  {
    if s == [] then None
    else if s[0].0 == k then Some(s[0].1)
    else
      assert Keys(s) == [s[0].0] + Keys(s[1..]);
      Lookup(s[1..], k)
  }

  /** With unique keys, a keyed read finds exactly the pairs the list holds. */
  lemma LookupUnique<K, V>(s: seq<(K, V)>, k: K, v: V)
    requires UniqueKeys(s)
    ensures Lookup(s, k) == Some(v) <==> (k, v) in s
  {
  }

  /** Appending a pair under a key that is not present keeps the keys unique. */
  lemma AppendFreshKey<K, V>(s: seq<(K, V)>, k: K, v: V)
    requires UniqueKeys(s)
    requires k !in Keys(s)
    ensures UniqueKeys(s + [(k, v)])
  {
  }

  /** A keyed read finds a pair appended under a key that was not there before. */
  lemma {:induction false} LookupAfterFreshAppend<K, V>(s: seq<(K, V)>, key: K, v: V)
    requires key !in Keys(s)
    ensures Lookup(s + [(key, v)], key) == Some(v)
  {
    if s != [] {
      assert Keys(s)[0] == s[0].0;
      assert Keys(s[1..]) == Keys(s)[1..];
      assert (s + [(key, v)])[1..] == s[1..] + [(key, v)];
      LookupAfterFreshAppend(s[1..], key, v);
    }
  }

  /** Messages of a conversation; an absent conversation reads as no children. */
  function Messages(chats: map<ChatId, Thread>, c: ChatId): (t: Thread)
    ensures c !in chats ==> t == []
    ensures c in chats ==> t == chats[c]
  {
    if c in chats then chats[c] else []
  }

  /**
   * The chat room id both pages compute independently:
   * the student's uid, the separator, then the teacher's uid.
   */
  function ChatRoomId(studentUid: Uid, teacherUid: Uid): (id: ChatId)
    ensures |id| == |studentUid| + 1 + |teacherUid|
    ensures id[..|studentUid|] == studentUid
    ensures id[|studentUid|] == Separator
    ensures id[|studentUid| + 1..] == teacherUid
  {
    studentUid + [Separator] + teacherUid
  }

  /** For one teacher, distinct students get distinct chat rooms. */
  lemma ChatRoomIdInjective(s1: Uid, s2: Uid, t: Uid)
    requires ChatRoomId(s1, t) == ChatRoomId(s2, t)
    ensures s1 == s2
  {
  }

  /** When student uids never contain the separator, the id determines both uids. */
  lemma ChatRoomIdDeterminesPair(s1: Uid, t1: Uid, s2: Uid, t2: Uid)
    requires Separator !in s1 && Separator !in s2
    requires ChatRoomId(s1, t1) == ChatRoomId(s2, t2)
    ensures s1 == s2 && t1 == t2
  {
  }

  /** Without that condition the id is ambiguous: two different pairs share one room. */
  lemma ChatRoomIdAmbiguous()
    ensures ChatRoomId("a_b", "c") == ChatRoomId("a", "b_c")
  {
  }

  /** The name shown for a student whose users/<uid>/name does not exist, on both pages. */
  const DefaultStudentName := "生徒"

  /**
   * A display name read from users/<uid>/name: the stored name when the node
   * exists, otherwise the page's default.
   */
  function DisplayName(names: map<Uid, string>, uid: Uid, fallback: string): (n: string)
    ensures uid in names ==> n == names[uid]
    ensures uid !in names ==> n == fallback
  {
    if uid in names then names[uid] else fallback
  }

  /** A message node after `update(ref, {advice: text})` merged into it. */
  function Merged(old_: Option<Entry>, text: string): (e: Entry)
    ensures e.advice == Some(text)
    ensures old_.Some? ==> e == old_.value.(advice := Some(text))
    ensures old_.None? ==> e == Entry(None, None, None, None, None, None, None, Some(text))
  {
    match old_
    case Some(m) => m.(advice := Some(text))
    case None => Entry(None, None, None, None, None, None, None, Some(text))
  }

  /** The keys of a concatenation are the concatenated keys. */
  lemma KeysConcat<K, V>(a: seq<(K, V)>, b: seq<(K, V)>)
    ensures Keys(a + b) == Keys(a) + Keys(b)
  {
  }

  /**
   * The thread after a merge-update of the advice field of message `k`.
   * An existing node keeps its place and every other field; a missing node
   * is created holding only the advice (and is placed last here).
   */
  function MergeAdvice(t: Thread, k: MsgId, text: string): (r: Thread)
    ensures Keys(r) == if k in Keys(t) then Keys(t) else Keys(t) + [k]
  {
    if t == [] then [(k, Merged(None, text))]
    else
      KeysConcat([t[0]], t[1..]);
      assert t == [t[0]] + t[1..];
      if t[0].0 == k then
        KeysConcat([(k, Merged(Some(t[0].1), text))], t[1..]);
        [(k, Merged(Some(t[0].1), text))] + t[1..]
      else
        var rest := MergeAdvice(t[1..], k, text);
        KeysConcat([t[0]], rest);
        [t[0]] + rest
  }

  /** The updated message holds the new advice and its earlier fields. */
  lemma {:induction false} MergeAdviceAt(t: Thread, k: MsgId, text: string)
    ensures Lookup(MergeAdvice(t, k, text), k) == Some(Merged(Lookup(t, k), text))
  {
    if t != [] && t[0].0 != k {
      MergeAdviceAt(t[1..], k, text);
    }
  }

  /** No other message of the thread changes. */
  lemma {:induction false} MergeAdviceElsewhere(t: Thread, k: MsgId, text: string, other: MsgId)
    requires other != k
    ensures Lookup(MergeAdvice(t, k, text), other) == Lookup(t, other)
  {
    if t != [] && t[0].0 != k {
      MergeAdviceElsewhere(t[1..], k, text, other);
    }
  }

  /** A second advice overwrites the first: the last write wins. */
  lemma {:induction false} MergeAdviceLastWriteWins(t: Thread, k: MsgId, x: string, y: string)
    ensures MergeAdvice(MergeAdvice(t, k, x), k, y) == MergeAdvice(t, k, y)
  {
    if t != [] && t[0].0 != k {
      MergeAdviceLastWriteWins(t[1..], k, x, y);
    }
  }

  /** The merge keeps the keys of a thread unique. */
  lemma MergeAdviceUniqueKeys(t: Thread, k: MsgId, text: string)
    requires UniqueKeys(t)
    ensures UniqueKeys(MergeAdvice(t, k, text))
  {
  }

  /** The part of the tree both pages read and write. */
  class Database {
    var names: map<Uid, string>
    var pairs: seq<(Uid, Uid)>
    var chats: map<ChatId, Thread>

    /** Keys in the tree are unique. */
    ghost predicate Valid()
      reads this
    {
      && UniqueKeys(pairs)
      && forall c :: c in chats ==> UniqueKeys(chats[c])
    }

    /** An empty tree: no names, no pairs, no conversations. */
    constructor ()
      ensures Valid()
      ensures names == map[] && pairs == [] && chats == map[]
    {
      names, pairs, chats := map[], [], map[];
    }

    /**
     * `set(push(ref(chats/<c>/messages)), value)`. The generated key is new to
     * the conversation and sorts after every key already there, so the new
     * message becomes the last child.
     */
    method Push(c: ChatId, key: MsgId, value: Entry)
      requires Valid()
      requires key !in Keys(Messages(chats, c))
      modifies this
      ensures Valid()
      ensures chats == old(chats)[c := old(Messages(chats, c)) + [(key, value)]]
      ensures names == old(names) && pairs == old(pairs)
    {
      AppendFreshKey(Messages(chats, c), key, value);
      chats := chats[c := Messages(chats, c) + [(key, value)]];
    }

    /** `update(ref(chats/<c>/messages/<k>), {advice: text})`. */
    method UpdateAdvice(c: ChatId, k: MsgId, text: string)
      requires Valid()
      modifies this
      ensures Valid()
      ensures chats == old(chats)[c := MergeAdvice(old(Messages(chats, c)), k, text)]
      ensures names == old(names) && pairs == old(pairs)
    {
      MergeAdviceUniqueKeys(Messages(chats, c), k, text);
      chats := chats[c := MergeAdvice(Messages(chats, c), k, text)];
    }
  }
}
