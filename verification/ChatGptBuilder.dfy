// The streaming response builder: rendered answers are sent as the text they add.
module ChatGptBuilder {
  import opened Records

  method CommonPrefixLength(a: string, b: string) returns (i: nat)
    ensures i <= |a| && i <= |b| && a[..i] == b[..i]
    ensures i < |a| && i < |b| ==> a[i] != b[i]
  {
    var n := if |a| < |b| then |a| else |b|;
    i := 0;
    while i < n && a[i] == b[i]
      invariant i <= n && a[..i] == b[..i]
    {
      i := i + 1;
    }
  }

  /** An answer is accepted when it strictly extends what was sent; anything else is dropped. */
  function Accept(sent: string, rendered: string): string {
    if sent < rendered then rendered else sent
  }

  function AcceptAll(sent: string, answers: seq<string>): string
    decreases |answers|
  {
    if answers == [] then sent else AcceptAll(Accept(sent, answers[0]), answers[1..])
  }

  class Builder {
    var emittedText: string
    var deltas: seq<string>

    predicate Valid()
      reads this
    {
      Concat(deltas) == emittedText
    }

    constructor ()
      ensures Valid() && emittedText == "" && deltas == []
    {
      emittedText, deltas := "", [];
    }

    method EmitRenderedDelta(content: string)
      requires Valid()
      modifies this
      ensures Valid() && emittedText == old(emittedText) + content
      ensures deltas == if content == "" then old(deltas) else old(deltas) + [content]
    {
      if content == "" {
        return;
      }
      ConcatSnoc(deltas, content);
      emittedText := emittedText + content;
      deltas := deltas + [content];
    }

    // `rendered` is the cleaned answer text.
    method EmitRenderedAnswer(rendered: string)
      requires Valid()
      modifies this
      ensures Valid() && emittedText == Accept(old(emittedText), rendered)
    {
      if rendered == "" || |rendered| <= |emittedText| {
        return;
      }
      if !(emittedText <= rendered) {
        var common := CommonPrefixLength(rendered, emittedText);
        // The comparison below never lets a rewritten answer through.
        assert emittedText[..|emittedText|] == emittedText;
        if common < |emittedText| {
          return;
        }
      }
      EmitRenderedDelta(rendered[|emittedText|..]);
    }
  }

  predicate Chain(sent: string, answers: seq<string>)
    decreases |answers|
  {
    answers == [] || (sent <= answers[0] && Chain(answers[0], answers[1..]))
  }

  /** The text sent is one of the answers given, and never loses what was sent before. */
  lemma {:induction false} SentIsAnAnswer(sent: string, answers: seq<string>)
    ensures sent <= AcceptAll(sent, answers)
    ensures AcceptAll(sent, answers) == sent || AcceptAll(sent, answers) in answers
    decreases |answers|
  {
    if answers != [] {
      SentIsAnAnswer(Accept(sent, answers[0]), answers[1..]);
    }
  }

  /** Answers that only grow are all delivered: the client ends with the last one. */
  lemma {:induction false} GrowingAnswersArrive(sent: string, answers: seq<string>)
    requires Chain(sent, answers) && answers != []
    ensures AcceptAll(sent, answers) == answers[|answers| - 1]
    decreases |answers|
  {
    assert Accept(sent, answers[0]) == answers[0];
    if |answers| > 1 {
      GrowingAnswersArrive(answers[0], answers[1..]);
    }
  }

  lemma {:induction false} AcceptLast(sent: string, answers: seq<string>)
    requires answers != []
    ensures AcceptAll(sent, answers) == Accept(AcceptAll(sent, answers[..|answers| - 1]), answers[|answers| - 1])
    decreases |answers|
  {
    if |answers| == 1 {
      assert answers[1..] == [] && answers[..0] == [];
    } else {
      AcceptLast(Accept(sent, answers[0]), answers[1..]);
      assert answers[1..][..|answers| - 2] == answers[..|answers| - 1][1..];
    }
  }

  /** The client ends with the last answer if and only if what was sent before is a prefix of it. */
  lemma LastAnswerArrivesIff(sent: string, answers: seq<string>)
    requires answers != []
    ensures AcceptAll(sent, answers) == answers[|answers| - 1] <==>
            AcceptAll(sent, answers[..|answers| - 1]) <= answers[|answers| - 1]
  {
    AcceptLast(sent, answers);
  }
}
