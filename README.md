# Session registry model

This project is a Dafny model of the session registry behind a small chat
service (`index.py`). The service keeps three tables:

- `user`: one row per registered user.
- `assistant`: binds a user to a remote assistant handle.
- `thread`: binds a user and that user's assistant to a remote conversation thread.

The route handlers `create_user`, `create_assistant` and `create_thread` add
rows to these tables. `chat_with_memory` and `messages_with_memory` look up the
user's thread and talk to the remote conversation service.

The model has three modules:

- `Rows` (`rows.dfy`): the row types. It also holds `First`, the first-match
  lookup that every `select(...).first()` performs, and the table invariants.
  These are unique user ids, unique emails, unique assistant and thread
  handles, and "every thread is bound to an assistant row of its own user".
- `Transcript` (`transcript.dfy`): the remote message shape and the loop that
  turns a listed thread into `{role, content}` entries. Its reference
  definitions are `Chronological` (the listed order) and `Reversed`.
- `Registry` (`registry.dfy`): the class `SessionRegistry`. It holds the three
  tables as sequences. Each route handler is a method, and every method keeps
  the invariant `Valid()`. `Walkthrough` runs a full session on concrete values, ending with
  `ReadTranscript`, which reads the transcript back.

The remote service is not modelled. It appears in two ways:

- A handle it mints is a parameter (`minted`).
- The page of messages it lists for a thread is a map from thread handle to
  that page, in ascending order (`conversations`).

Exceptions the handlers would raise are `Raised(fault)` results. The
`{"error": ...}` replies are `Rejected(message)`. Both write nothing.

Lookups with `.first()` carry no `ORDER BY`. The model takes "first" to mean
first in insertion order.

The code requests the messages with `order="asc"` (index.py:226) and then
walks the listed page with `reversed(...)` (index.py:228), so the transcript is
**newest first** within that page. `Format` states this entry by entry (entry
`i` comes from listed message `n-1-i`). It also states it as
`Reversed(Chronological(fetched))`.

## Model

| member | source | states |
|---|---|---|
| `Rows.First` | index.py:100-103 | A `.first()` lookup: None exactly when no row matches. Otherwise it returns a matching row, and no earlier row matches. |
| `Rows.FirstAppend` | index.py:185-186 | Appending a row never changes an existing first match. The new row is found only when no older row matches, so a user's second assistant or second thread is never the one selected. |
| `Transcript.Format` | index.py:226-231 | The loop fails exactly when some listed message has no leading text part. Otherwise the transcript has the listed length and entry `i` is the role and first text of listed message `n-1-i`. It equals the reverse of the chronological formatting, and an empty list gives an empty transcript. |
| `Transcript.TranscriptReadBackwards` | index.py:226-231 | The transcript read backwards is the listed, ascending order. Its first entry is the newest listed message. |
| `Registry.SessionRegistry.constructor` | index.py:23-42 | The three tables start empty and satisfy every invariant. |
| `Registry.SessionRegistry.CreateUser` | index.py:97-114 | Rejects with "User id or Email already exists" exactly when the user id or the email is already present, and changes nothing. Otherwise it appends exactly the row `{user_id, name, email}`. Other tables are untouched, and ids and emails stay pairwise distinct. |
| `Registry.SessionRegistry.CreateAssistant` | index.py:137-150 | Rejects with "Assistant already exists" exactly when the minted handle is present, and writes nothing. Otherwise it appends exactly `{assistant_id=handle, user_id, assistant=name}`. Handles stay unique, and every user's first assistant is unchanged. |
| `Registry.SessionRegistry.CreateThread` | index.py:181-197 | Raises and writes nothing when the user has no assistant row, or when the handle already exists (unique constraint). Otherwise it appends one thread with the given user and label, bound to the user's first assistant. Handles stay unique, and every user's first thread is unchanged. |
| `Registry.SessionRegistry.ChatWithMemory` | index.py:201-215 | Raises exactly when the user has no thread. Otherwise it posts the prompt as a `user` message to the first thread, then starts a run of that thread's assistant, which is an assistant of the same user. No table changes. |
| `Registry.SessionRegistry.MessagesWithMemory` | index.py:218-234 | Raises when the user has no thread, when the remote service does not know the thread, or when a message has no leading text. Otherwise it returns the listed page of the first thread's messages, newest first. No table changes. |

## Left out

- Every call to the remote service: chat and code completions, the liveness probe, assistant creation, thread creation, posting a message, starting a run and listing messages (index.py:46-94, index.py:127-135, index.py:175-177, index.py:209-215, index.py:243-246). These are network calls. Minted handles and listed messages are inputs. `ChatWithMemory` returns the two requests it would send, and the run object those requests return is not modelled.
- Remote resources left behind. The extra `threads.create()` inside `create_assistant` (index.py:133) has no local effect. `create_thread` asks for a remote thread before it finds out that the user has no assistant, so it leaves an orphan remote thread. The model cannot see either effect.
- Routing, environment loading, engine creation and table creation (index.py:9-19, index.py:237-240). This is I/O and configuration. The constructor stands for the empty tables.
- `get_user` (index.py:117-122) and the `__main__` block (index.py:249-251). Both are debugging scaffolding with a hard-coded id.
- The commented-out helpers (index.py:153-172) and the unreachable lines after `return` (index.py:106-107). They are dead code.
- model.py and database.py: model.py is an unused alternative schema, and database.py only sets up the engine.
- The store-generated integer `id` columns of `assistant` and `thread`. No operation reads them.
- Foreign-key enforcement by the database engine (index.py:33, index.py:40-41). The handlers never check foreign keys. In the model, `CreateAssistant` accepts a user id that is not registered.
- Transactions, commit atomicity and concurrent requests. Each handler is one sequential step, so two racing `create_assistant` calls for the same user are not modelled.
- Pagination of the message list. `conversations[handle]` stands for `messages.data`, the single page one list call returns (index.py:226-228). Under `order="asc"` that page holds the oldest messages. The code never asks for further pages, so for a thread longer than one page the newest messages are missing from the transcript, and its first entry is the newest message of the page, not of the thread.
- Message content parts other than text and image files. Any non-text leading part behaves like `ImageFile`.
