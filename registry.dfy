/** The route handlers that read and write the three tables. Minted remote
    handles arrive as parameters; the page of messages the remote service
    lists for a thread arrives as a map from thread handle to that page, in
    ascending order. */
module Registry {

  import opened Rows
  import opened Transcript

  /** Why a handler raised instead of returning a reply. */
  datatype Fault =
    | NoAssistantRow    // `result` is None, so `result.assistant_id` raises
    | NoThreadRow       // `result` is None, so `result.assistant_id` raises
    | UniqueViolation   // the commit breaks the unique constraint on `thread_id`
    | UnknownThread     // the remote service has no thread with that handle
    | ContentNotText    // a message has no leading text part

  /** What a handler produces: the value it returns, the `{"error": ...}`
      reply it returns, or the exception it raises. */
  datatype Response<T> = Ok(value: T) | Rejected(message: string) | Raised(fault: Fault)

  /** A request sent to the remote service. */
  datatype RemoteCall =
    | PostMessage(threadId: string, role: string, content: string)
    | StartRun(threadId: string, assistantId: string)

  class SessionRegistry {
    var users: seq<UserRow>
    var assistants: seq<AssistantRow>
    var threads: seq<ThreadRow>

    /** The declared keys are unique, emails are unique, and every thread
        is bound to an assistant row of its own user. */
    ghost predicate Valid()
      reads this
    {
      UserKeysUnique(users) && AssistantIdsUnique(assistants) &&
      ThreadIdsUnique(threads) && ThreadsBound(assistants, threads)
    }

    /** The three tables, freshly created and empty. */
    constructor ()
      ensures Valid()
      ensures users == [] && assistants == [] && threads == []
    {
      users, assistants, threads := [], [], [];
    }

    /** `create_user`: rejects a user id or an email that is already
        registered, otherwise inserts one row. */
    method CreateUser(userId: string, name: string, email: string) returns (r: Response<string>)
      requires Valid()
      modifies this
      ensures Valid()
      ensures r.Rejected? <==> HasUserId(old(users), userId) || HasEmail(old(users), email)
      ensures r.Rejected? ==> r.message == "User id or Email already exists" && users == old(users)
      ensures r.Ok? ==> r.value == "user created" && users == old(users) + [UserRow(userId, name, email)]
      ensures !r.Raised?
      ensures assistants == old(assistants) && threads == old(threads)
    {
      var userExist := First(users, (u: UserRow) => u.userId == userId);
      var emailExist := First(users, (u: UserRow) => u.email == email);
      if userExist.Some? || emailExist.Some? {
        r := Rejected("User id or Email already exists");
      } else {
        users := users + [UserRow(userId, name, email)];
        r := Ok("user created");
      }
    }

    /** `create_assistant`, after the remote service has minted `minted`:
        rejects a handle already in the table, otherwise inserts one row.
        Rows of other users and earlier rows of the same user are kept, so
        the first assistant of every user stays the same. */
    method CreateAssistant(userId: string, assistantName: string, minted: string) returns (r: Response<string>)
      requires Valid()
      modifies this
      ensures Valid()
      ensures r.Rejected? <==> HasAssistantId(old(assistants), minted)
      ensures r.Rejected? ==> r.message == "Assistant already exists" && assistants == old(assistants)
      ensures r.Ok? ==> r.value == "assistant created"
      ensures r.Ok? ==> assistants == old(assistants) + [AssistantRow(minted, userId, assistantName)]
      ensures !r.Raised?
      ensures forall u :: old(FirstAssistantOf(assistants, u)).Some? ==>
        FirstAssistantOf(assistants, u) == old(FirstAssistantOf(assistants, u))
      ensures users == old(users) && threads == old(threads)
    {
      var assistantExist := First(assistants, (a: AssistantRow) => a.assistantId == minted);
      if assistantExist.Some? {
        r := Rejected("Assistant already exists");
      } else {
        ghost var before := assistants;
        var row := AssistantRow(minted, userId, assistantName);
        assistants := assistants + [row];
        forall u | FirstAssistantOf(before, u).Some?
          ensures FirstAssistantOf(assistants, u) == FirstAssistantOf(before, u)
        {
          FirstAppend(before, row, (a: AssistantRow) => a.userId == u);
        }
        forall k | 0 <= k < |threads|
          ensures BoundTo(assistants, threads[k].userId, threads[k].assistantId)
        {
          assert BoundTo(before, threads[k].userId, threads[k].assistantId);
          var i :| 0 <= i < |before| && before[i].userId == threads[k].userId &&
                   before[i].assistantId == threads[k].assistantId;
          assert assistants[i] == before[i];
        }
        r := Ok("assistant created");
      }
    }

    /** `create_thread`, with `minted` the handle the remote service returned:
        binds the new thread to the user's first assistant row. Raises, and
        writes nothing, when the user has no assistant row or the handle is
        already in the table. */
    method CreateThread(userId: string, thread: string, minted: string) returns (r: Response<string>)
      requires Valid()
      modifies this
      ensures Valid()
      ensures FirstAssistantOf(old(assistants), userId).None? ==>
        r == Raised(NoAssistantRow) && threads == old(threads)
      ensures FirstAssistantOf(old(assistants), userId).Some? && HasThreadId(old(threads), minted) ==>
        r == Raised(UniqueViolation) && threads == old(threads)
      ensures r.Ok? <==> FirstAssistantOf(old(assistants), userId).Some? && !HasThreadId(old(threads), minted)
      ensures r.Ok? ==> r.value == "thread created"
      ensures r.Ok? ==>
        var bound := FirstAssistantOf(old(assistants), userId).value;
        threads == old(threads) + [ThreadRow(minted, userId, bound.assistantId, thread)]
      ensures !r.Rejected?
      ensures forall u :: old(FirstThreadOf(threads, u)).Some? ==>
        FirstThreadOf(threads, u) == old(FirstThreadOf(threads, u))
      ensures users == old(users) && assistants == old(assistants)
    {
      var result := FirstAssistantOf(assistants, userId);
      if result.None? {
        return Raised(NoAssistantRow);
      }
      var taken := First(threads, (t: ThreadRow) => t.threadId == minted);
      if taken.Some? {
        return Raised(UniqueViolation);
      }
      ghost var before := threads;
      var row := ThreadRow(minted, userId, result.value.assistantId, thread);
      threads := threads + [row];
      forall u | FirstThreadOf(before, u).Some?
        ensures FirstThreadOf(threads, u) == FirstThreadOf(before, u)
      {
        FirstAppend(before, row, (t: ThreadRow) => t.userId == u);
      }
      assert BoundTo(assistants, row.userId, row.assistantId);
      r := Ok("thread created");
    }

    /** `chat_with_memory`: posts the prompt as a user message to the user's
        first thread and starts a run of that thread's assistant, which is an
        assistant of the same user. Writes no table. */
    method ChatWithMemory(userId: string, prompt: string) returns (r: Response<seq<RemoteCall>>)
      requires Valid()
      ensures FirstThreadOf(threads, userId).None? <==> r == Raised(NoThreadRow)
      ensures r.Ok? <==> FirstThreadOf(threads, userId).Some?
      ensures r.Ok? ==>
        var t := FirstThreadOf(threads, userId).value;
        r.value == [PostMessage(t.threadId, "user", prompt), StartRun(t.threadId, t.assistantId)]
      ensures r.Ok? ==> BoundTo(assistants, userId, r.value[1].assistantId)
    {
      var result := FirstThreadOf(threads, userId);
      if result.None? {
        return Raised(NoThreadRow);
      }
      var t := result.value;
      r := Ok([PostMessage(t.threadId, "user", prompt), StartRun(t.threadId, t.assistantId)]);
    }

    /** `messages_with_memory`: lists the user's first thread in ascending
        order and returns the listed page, newest first. Writes no table.
        `conversations[handle]` is the one page `messages.data` that a single
        list call returns, not necessarily the whole thread. */
    method MessagesWithMemory(userId: string, conversations: map<string, seq<Message>>)
      returns (r: Response<seq<Turn>>)
      requires Valid()
      ensures FirstThreadOf(threads, userId).None? ==> r == Raised(NoThreadRow)
      ensures FirstThreadOf(threads, userId).Some? ==>
        var handle := FirstThreadOf(threads, userId).value.threadId;
        if handle !in conversations then r == Raised(UnknownThread)
        else if !AllFormattable(conversations[handle]) then r == Raised(ContentNotText)
        else r.Ok? && r.value == Reversed(Chronological(conversations[handle]))
      ensures r.Ok? ==>
        var listed := conversations[FirstThreadOf(threads, userId).value.threadId];
        |r.value| == |listed| &&
        forall i :: 0 <= i < |listed| ==> r.value[i] == TurnOf(listed[|listed| - 1 - i])
      ensures !r.Rejected?
    {
      var result := FirstThreadOf(threads, userId);
      if result.None? {
        return Raised(NoThreadRow);
      }
      var handle := result.value.threadId;
      if handle !in conversations {
        return Raised(UnknownThread);
      }
      var formatted := Format(conversations[handle]);
      if formatted.None? {
        return Raised(ContentNotText);
      }
      r := Ok(formatted.value);
    }
  }

  /** A session from registration to transcript: a duplicate email is
      rejected, the thread is bound to the user's assistant, and the
      transcript lists the assistant's reply before the user's prompt. */
  method Walkthrough()
  {
    var registry := new SessionRegistry();
    var r := registry.CreateUser("u1", "Ann", "ann@example.com");
    assert r == Ok("user created");
    assert registry.users[0].email == "ann@example.com";
    r := registry.CreateUser("u2", "Bob", "ann@example.com");
    assert r == Rejected("User id or Email already exists");

    r := registry.CreateAssistant("u1", "helper", "asst_1");
    assert r == Ok("assistant created");
    assert registry.assistants == [AssistantRow("asst_1", "u1", "helper")];

    r := registry.CreateThread("u1", "first-chat", "thread_1");
    assert registry.threads == [ThreadRow("thread_1", "u1", "asst_1", "first-chat")];

    var calls := registry.ChatWithMemory("u1", "hello");
    assert calls == Ok([PostMessage("thread_1", "user", "hello"), StartRun("thread_1", "asst_1")]);

    ReadTranscript(registry);
  }

  /** The transcript step of `Walkthrough`: with the listed page holding the
      user's prompt and then the assistant's reply, the transcript has the
      reply first. */
  method ReadTranscript(registry: SessionRegistry)
    requires registry.Valid()
    requires registry.threads == [ThreadRow("thread_1", "u1", "asst_1", "first-chat")]
  {
    var ascending := [Message("user", [Text("hello")]), Message("assistant", [Text("hi")])];
    assert AllFormattable(ascending) by {
      assert Formattable(ascending[0]) && Formattable(ascending[1]);
    }
    var conversations := map["thread_1" := ascending];
    assert conversations["thread_1"] == ascending;
    var transcript := registry.MessagesWithMemory("u1", conversations);
    assert transcript.Ok? && |transcript.value| == 2;
    assert transcript.value[0] == Turn("assistant", "hi");
    assert transcript.value[1] == Turn("user", "hello");
    assert transcript.value == [Turn("assistant", "hi"), Turn("user", "hello")];
  }
}
