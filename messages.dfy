/** The student's messages view (components/Messages.tsx): a local copy of
    the conversations, the selected teacher, and sending a message. */
module Messages {
  import opened Types
  import opened Lists
  import opened Text

  function WithTeacher(teacherId: string): Conversation -> bool {
    (c: Conversation) => c.teacherId == teacherId
  }

  /** `handleSendMessage`'s map: the message appended to each conversation with the teacher. */
  function AppendToTeacher(cs: seq<Conversation>, teacherId: string, m: Message): (r: seq<Conversation>)
    ensures |r| == |cs|
    ensures forall i :: 0 <= i < |cs| ==>
      r[i] == if cs[i].teacherId == teacherId then cs[i].(messages := cs[i].messages + [m]) else cs[i]
  {
    if cs == [] then []
    else
      var c := cs[0];
      [if c.teacherId == teacherId then c.(messages := c.messages + [m]) else c] + AppendToTeacher(cs[1..], teacherId, m)
  }

  /** With no conversation for the teacher, sending changes no conversation. */
  lemma AppendToAbsentTeacher(cs: seq<Conversation>, teacherId: string, m: Message)
    requires forall c :: c in cs ==> c.teacherId != teacherId
    ensures AppendToTeacher(cs, teacherId, m) == cs
  {
    var r := AppendToTeacher(cs, teacherId, m);
    forall i | 0 <= i < |cs| ensures r[i] == cs[i] {
      assert cs[i] in cs;
    }
  }

  /** The same conversation stays selected after sending, with the message at its end. */
  lemma SelectedAfterSend(cs: seq<Conversation>, teacherId: string, m: Message)
    ensures var r := AppendToTeacher(cs, teacherId, m);
      && FirstIndex(WithTeacher(teacherId), r) == FirstIndex(WithTeacher(teacherId), cs)
      && (FirstIndex(WithTeacher(teacherId), cs).Some? ==>
            var i := FirstIndex(WithTeacher(teacherId), cs).value;
            r[i].messages == cs[i].messages + [m])
  {
    var r := AppendToTeacher(cs, teacherId, m);
    assert forall j :: 0 <= j < |cs| ==> r[j].teacherId == cs[j].teacherId;
    FirstIndexSameKeys(cs, r, teacherId);
  }

  lemma {:induction false} FirstIndexSameKeys(cs: seq<Conversation>, r: seq<Conversation>, teacherId: string)
    requires |r| == |cs| && forall j :: 0 <= j < |cs| ==> r[j].teacherId == cs[j].teacherId
    ensures FirstIndex(WithTeacher(teacherId), r) == FirstIndex(WithTeacher(teacherId), cs)
  {
    if cs != [] {
      FirstIndexSameKeys(cs[1..], r[1..], teacherId);
    }
  }

  function MessageCount(cs: seq<Conversation>): nat {
    if cs == [] then 0 else |cs[0].messages| + MessageCount(cs[1..])
  }

  function ConversationsWith(cs: seq<Conversation>, teacherId: string): nat {
    if cs == [] then 0 else (if cs[0].teacherId == teacherId then 1 else 0) + ConversationsWith(cs[1..], teacherId)
  }

  /** Sending adds one message per conversation with the teacher, so exactly
      one when the teacher has a single conversation. */
  lemma {:induction false} SendAddsOnePerConversation(cs: seq<Conversation>, teacherId: string, m: Message)
    ensures MessageCount(AppendToTeacher(cs, teacherId, m)) == MessageCount(cs) + ConversationsWith(cs, teacherId)
  {
    if cs != [] {
      SendAddsOnePerConversation(cs[1..], teacherId, m);
      assert AppendToTeacher(cs, teacherId, m)[1..] == AppendToTeacher(cs[1..], teacherId, m);
    }
  }

  /** `teachers[0]?.id || null`: the first teacher's id, none when there are
      no teachers or the id is empty. */
  function InitialSelection(teachers: seq<User>): (r: Option<string>)
    ensures teachers == [] ==> r == None
    ensures r.Some? ==> teachers != [] && r.value == teachers[0].id && r.value != ""
    ensures teachers != [] && teachers[0].id != "" ==> r == Some(teachers[0].id)
  {
    if teachers != [] && teachers[0].id != "" then Some(teachers[0].id) else None
  }

  /** A message as the student sends it. */
  function StudentMessage(id: string, text: string): (m: Message)
    ensures m.sender == "student" && m.text == text && m.id == id
  {
    Message(id, "student", text, "Just now", None)
  }

  class MessagesView {
    var conversations: seq<Conversation>
    var selectedTeacherId: Option<string>
    var newMessage: string

    constructor (initialConversations: seq<Conversation>, teachers: seq<User>)
      ensures conversations == initialConversations
      ensures selectedTeacherId == InitialSelection(teachers) && newMessage == ""
    {
      conversations := initialConversations;
      selectedTeacherId := InitialSelection(teachers);
      newMessage := "";
    }

    /** `selectedConversation`: the first conversation with the selected teacher. */
    function SelectedConversation(): (r: Option<Conversation>)
      reads this
      ensures selectedTeacherId.None? ==> r.None?
      ensures r.Some? ==> r.value in conversations && Some(r.value.teacherId) == selectedTeacherId
      ensures selectedTeacherId.Some? ==> r == Find(WithTeacher(selectedTeacherId.value), conversations)
    {
      match selectedTeacherId
      case None => None
      case Some(t) =>
        match FirstIndex(WithTeacher(t), conversations)
        case None => None
        case Some(i) => Some(conversations[i])
    }

    method SelectTeacher(teacherId: string)
      modifies this
      ensures selectedTeacherId == Some(teacherId)
      ensures conversations == old(conversations) && newMessage == old(newMessage)
    {
      selectedTeacherId := Some(teacherId);
    }

    method SetNewMessage(text: string)
      modifies this
      ensures newMessage == text
      ensures conversations == old(conversations) && selectedTeacherId == old(selectedTeacherId)
    {
      newMessage := text;
    }

    /** `handleSendMessage`: nothing for a blank message or without a selected
        teacher; otherwise the message, text as typed, is appended to every
        conversation with the teacher and the input is cleared, even when no
        conversation matched. */
    method HandleSendMessage(freshId: string)
      modifies this
      ensures selectedTeacherId == old(selectedTeacherId)
      ensures IsBlank(old(newMessage)) || old(selectedTeacherId).None? || old(selectedTeacherId) == Some("") ==>
        conversations == old(conversations) && newMessage == old(newMessage)
      ensures !IsBlank(old(newMessage)) && old(selectedTeacherId).Some? && old(selectedTeacherId) != Some("") ==>
        && conversations == AppendToTeacher(old(conversations), old(selectedTeacherId).value,
                                            StudentMessage(freshId, old(newMessage)))
        && newMessage == ""
    {
      if IsBlank(newMessage) || selectedTeacherId.None? || selectedTeacherId == Some("") {
        return;
      }
      var message := StudentMessage(freshId, newMessage);
      conversations := AppendToTeacher(conversations, selectedTeacherId.value, message);
      newMessage := "";
    }
  }
}
