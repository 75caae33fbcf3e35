/** The three tables of the session registry (`user`, `assistant`, `thread`),
    the first-match lookup that every `select(...).first()` performs on them,
    and the integrity properties the registry keeps. */
module Rows {

  datatype Option<T> = None | Some(value: T)

  /** A row of the `user` table; `userId` is the primary key. */
  datatype UserRow = UserRow(userId: string, name: string, email: string)

  /** A row of the `assistant` table; `assistantId` is the remote assistant
      handle (declared unique), `assistant` the label the caller chose. */
  datatype AssistantRow = AssistantRow(assistantId: string, userId: string, assistant: string)

  /** A row of the `thread` table; `threadId` is the remote thread handle
      (declared unique), `thread` the label the caller chose. */
  datatype ThreadRow = ThreadRow(threadId: string, userId: string, assistantId: string, thread: string)

  /** The first row, in insertion order, that satisfies `matches`; None when
      no row does. */
  function First<T(==)>(rows: seq<T>, matches: T -> bool): (r: Option<T>)
    ensures r.None? <==> forall i :: 0 <= i < |rows| ==> !matches(rows[i])
    ensures r.Some? ==>
      exists i :: 0 <= i < |rows| && rows[i] == r.value && matches(rows[i]) &&
        forall j :: 0 <= j < i ==> !matches(rows[j])
  {
    if |rows| == 0 then None
    else if matches(rows[0]) then Some(rows[0])
    else
      var r := First(rows[1..], matches);
      assert forall i :: 1 <= i < |rows| ==> rows[i] == rows[1..][i - 1];
      r
  }

  /** `select(Assistant).where(Assistant.user_id == userId).first()` */
  function FirstAssistantOf(assistants: seq<AssistantRow>, userId: string): Option<AssistantRow>
  {
    First(assistants, (a: AssistantRow) => a.userId == userId)
  }

  /** `select(Thread).where(Thread.user_id == userId).first()` */
  function FirstThreadOf(threads: seq<ThreadRow>, userId: string): Option<ThreadRow>
  {
    First(threads, (t: ThreadRow) => t.userId == userId)
  }

  predicate HasUserId(users: seq<UserRow>, userId: string)
  {
    exists i :: 0 <= i < |users| && users[i].userId == userId
  }

  predicate HasEmail(users: seq<UserRow>, email: string)
  {
    exists i :: 0 <= i < |users| && users[i].email == email
  }

  predicate HasAssistantId(assistants: seq<AssistantRow>, assistantId: string)
  {
    exists i :: 0 <= i < |assistants| && assistants[i].assistantId == assistantId
  }

  predicate HasThreadId(threads: seq<ThreadRow>, threadId: string)
  {
    exists i :: 0 <= i < |threads| && threads[i].threadId == threadId
  }

  /** No two users share a user id, and no two users share an email. */
  ghost predicate UserKeysUnique(users: seq<UserRow>)
  {
    forall i, j :: 0 <= i < j < |users| ==>
      users[i].userId != users[j].userId && users[i].email != users[j].email
  }

  ghost predicate AssistantIdsUnique(assistants: seq<AssistantRow>)
  {
    forall i, j :: 0 <= i < j < |assistants| ==> assistants[i].assistantId != assistants[j].assistantId
  }

  ghost predicate ThreadIdsUnique(threads: seq<ThreadRow>)
  {
    forall i, j :: 0 <= i < j < |threads| ==> threads[i].threadId != threads[j].threadId
  }

  /** Every thread names an assistant row that belongs to the thread's own user. */
  ghost predicate ThreadsBound(assistants: seq<AssistantRow>, threads: seq<ThreadRow>)
  {
    forall k :: 0 <= k < |threads| ==> BoundTo(assistants, threads[k].userId, threads[k].assistantId)
  }

  ghost predicate BoundTo(assistants: seq<AssistantRow>, userId: string, assistantId: string)
  {
    exists i :: 0 <= i < |assistants| && assistants[i].userId == userId && assistants[i].assistantId == assistantId
  }

  /** Appending a row never changes what an earlier first-match lookup found;
      the new row is found only when no older row matches. */
  lemma {:induction false} FirstAppend<T>(rows: seq<T>, row: T, matches: T -> bool)
    ensures First(rows + [row], matches) ==
      match First(rows, matches)
      case Some(found) => Some(found)
      case None => if matches(row) then Some(row) else None
  {
    if |rows| > 0 {
      assert (rows + [row])[0] == rows[0];
      if !matches(rows[0]) {
        assert (rows + [row])[1..] == rows[1..] + [row];
        FirstAppend(rows[1..], row, matches);
      }
    }
  }
}
