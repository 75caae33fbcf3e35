/** The transcript that `messages_with_memory` returns: the thread's messages,
    fetched from the remote service in ascending order, walked backwards and
    reduced to a role and the text of the first content part. */
module Transcript {

  import opened Rows

  /** One part of a remote message's content: a text block or an image. */
  datatype ContentPart = Text(value: string) | ImageFile(fileId: string)

  /** A message as the remote service lists it. */
  datatype Message = Message(role: string, content: seq<ContentPart>)

  /** One entry of the transcript: `{"role": ..., "content": ...}`. */
  datatype Turn = Turn(role: string, content: string)

  /** `m.content[0].text.value` is defined: there is a first part and it is text. */
  predicate Formattable(m: Message)
  {
    |m.content| > 0 && m.content[0].Text?
  }

  function TurnOf(m: Message): Turn
    requires Formattable(m)
  {
    Turn(m.role, m.content[0].value)
  }

  ghost predicate AllFormattable(fetched: seq<Message>)
  {
    forall i :: 0 <= i < |fetched| ==> Formattable(fetched[i])
  }

  /** The messages in the order the remote service lists them (oldest first). */
  ghost function Chronological(fetched: seq<Message>): (turns: seq<Turn>)
    requires AllFormattable(fetched)
  {
    seq(|fetched|, i requires 0 <= i < |fetched| => TurnOf(fetched[i]))
  }

  ghost function Reversed<T>(s: seq<T>): seq<T>
  {
    if s == [] then [] else Reversed(s[1..]) + [s[0]]
  }

  lemma {:induction false} ReversedAt<T>(s: seq<T>, k: nat)
    requires k < |s|
    ensures |Reversed(s)| == |s| && Reversed(s)[k] == s[|s| - 1 - k]
  {
    if k < |s| - 1 {
      ReversedAt(s[1..], k);
    } else if |s| > 1 {
      ReversedAt(s[1..], 0);
    }
  }

  lemma {:induction false} ReversedLength<T>(s: seq<T>)
    ensures |Reversed(s)| == |s|
  {
    if s != [] { ReversedAt(s, 0); }
  }

  /** The formatting loop: walks `fetched` from its last element to its
      first, appending one turn per message. None when some message has no
      leading text part (the subscript or attribute access raises). */
  method Format(fetched: seq<Message>) returns (r: Option<seq<Turn>>)
    ensures r.Some? <==> AllFormattable(fetched)
    ensures r.Some? ==> |r.value| == |fetched|
    ensures r.Some? ==> forall i :: 0 <= i < |fetched| ==> r.value[i] == TurnOf(fetched[|fetched| - 1 - i])
    ensures r.Some? ==> r.value == Reversed(Chronological(fetched))
  {
    var n := |fetched|;
    var formatted: seq<Turn> := [];
    var j := n;
    while j > 0
      invariant 0 <= j <= n
      invariant |formatted| == n - j
      invariant forall k :: j <= k < n ==> Formattable(fetched[k]) && formatted[n - 1 - k] == TurnOf(fetched[k])
    {
      j := j - 1;
      var m := fetched[j];
      if !Formattable(m) {
        return None;
      }
      formatted := formatted + [TurnOf(m)];
    }
    forall i | 0 <= i < n
      ensures formatted[i] == TurnOf(fetched[n - 1 - i])
    {
      assert Formattable(fetched[n - 1 - i]);
    }
    ghost var chronological := Chronological(fetched);
    ReversedLength(chronological);
    forall i | 0 <= i < n
      ensures formatted[i] == Reversed(chronological)[i]
    {
      ReversedAt(chronological, i);
    }
    r := Some(formatted);
  }

  /** The transcript is newest first: read backwards, it is the remote
      service's ascending order. */
  lemma {:induction false} TranscriptReadBackwards(fetched: seq<Message>, transcript: seq<Turn>)
    requires AllFormattable(fetched)
    requires |transcript| == |fetched|
    requires forall i :: 0 <= i < |fetched| ==> transcript[i] == TurnOf(fetched[|fetched| - 1 - i])
    ensures Reversed(transcript) == Chronological(fetched)
    ensures |fetched| > 0 ==> transcript[0] == TurnOf(fetched[|fetched| - 1])
  {
    var n := |fetched|;
    ReversedLength(transcript);
    forall k | 0 <= k < n
      ensures Reversed(transcript)[k] == Chronological(fetched)[k]
    {
      ReversedAt(transcript, k);
    }
  }
}
