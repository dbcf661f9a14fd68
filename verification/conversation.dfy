/** The process-wide conversation log of the query service and the history
    block that is put into each prompt (app.py). */
module Conversation {
  import opened Common

  /** One entry of the log. The service only ever stores dicts with a role and
      a content; NonDict stands for any other Python value, which the history
      formatter skips. */
  datatype Message = Turn(role: string, content: string) | NonDict

  const UserRole := "Utilisateur"
  const AssistantRole := "Assistant"

  /** What the prompt receives as history when nothing was asked yet. */
  const NoHistory := "Aucune conversation précédente."

  /** How many of the most recent entries the prompt sees. */
  const WindowSize := 4

  /** The log as query_documents builds it: question/answer pairs, the user's
      turn first. */
  predicate WellFormed(log: seq<Message>) {
    && |log| % 2 == 0
    && forall i :: 0 <= i < |log| ==>
         log[i].Turn? && log[i].role == (if i % 2 == 0 then UserRole else AssistantRole)
  }

  /** Python's log[-4:]. */
  function Window(log: seq<Message>): (w: seq<Message>)
    ensures |w| == if |log| < WindowSize then |log| else WindowSize
    ensures forall i :: 0 <= i < |w| ==> w[i] == log[|log| - |w| + i]
  {
    if |log| <= WindowSize then log else log[|log| - WindowSize..]
  }

  /** The history line of one entry; entries that are not dicts give nothing. */
  function Line(m: Message): string {
    match m
    case Turn(role, content) => role + ": " + content + "\n"
    case NonDict => ""
  }

  /** The lines of the given entries, oldest first. */
  function Lines(w: seq<Message>): string {
    ConcatMap(w, Line)
  }

  /** format_history: the placeholder for an empty log, otherwise the lines of
      the last WindowSize entries. */
  function History(log: seq<Message>): string {
    if log == [] then NoHistory else Lines(Window(log))
  }

  lemma LinesAppend(a: seq<Message>, b: seq<Message>)
    ensures Lines(a + b) == Lines(a) + Lines(b)
  {
    ConcatMapAppend(a, b, Line);
  }

  /** The lines are empty or end with a newline. */
  lemma {:induction false} LinesEndInNewline(w: seq<Message>)
    ensures Lines(w) == [] || Lines(w)[|Lines(w)| - 1] == '\n'
  {
    if w != [] {
      LinesEndInNewline(w[..|w| - 1]);
    }
  }

  /** The placeholder is produced exactly when the log is empty. */
  lemma HistoryIsPlaceholderIffEmpty(log: seq<Message>)
    ensures History(log) == NoHistory <==> log == []
  {
    if log != [] {
      LinesEndInNewline(Window(log));
      assert NoHistory[|NoHistory| - 1] == '.';
    }
  }

  /** With at least four entries, exactly the last four are rendered, oldest first. */
  lemma HistoryShowsLastFour(log: seq<Message>)
    requires |log| >= WindowSize
    ensures var n := |log|;
      History(log) == Line(log[n - 4]) + Line(log[n - 3]) + Line(log[n - 2]) + Line(log[n - 1])
  {
    var n := |log|;
    var w := Window(log);
    assert w == [log[n - 4], log[n - 3], log[n - 2], log[n - 1]];
    var w3, w2, w1 := w[..3], w[..2], w[..1];
    assert w3[..2] == w2 && w2[..1] == w1 && w1[..0] == [];
    assert Lines(w1) == Lines([]) + Line(log[n - 4]);
    assert Lines(w2) == Lines(w1) + Line(log[n - 3]);
    assert Lines(w3) == Lines(w2) + Line(log[n - 2]);
    assert Lines(w) == Lines(w3) + Line(log[n - 1]);
  }

  /** Entries older than the last four never influence the history. */
  lemma HistoryIgnoresOlder(older: seq<Message>, recent: seq<Message>)
    requires |recent| >= WindowSize
    ensures History(older + recent) == History(recent)
  {
    assert Window(older + recent) == Window(recent);
  }

  /** An entry that is not a dict contributes nothing to the rendered lines. */
  lemma LinesSkipNonDict(a: seq<Message>, b: seq<Message>)
    ensures Lines(a + [NonDict] + b) == Lines(a + b)
  {
    LinesAppend(a + [NonDict], b);
    LinesAppend(a, b);
    assert Lines(a + [NonDict]) == Lines(a);
  }

  /** In a log built by the service the window starts with a user turn, so the
      history always shows whole question/answer pairs. */
  lemma WindowStartsWithQuestion(log: seq<Message>)
    requires WellFormed(log) && log != []
    ensures Window(log)[0].Turn? && Window(log)[0].role == UserRole
    ensures |Window(log)| % 2 == 0
  {
  }

  lemma LinesStep(w: seq<Message>, i: nat)
    requires i < |w|
    ensures Lines(w[..i + 1]) == Lines(w[..i]) + Line(w[i])
  {
    assert w[..i + 1][..i] == w[..i];
  }

  /** The conversation_history list. */
  class ConversationLog {
    var turns: seq<Message>

    constructor ()
      ensures turns == [] && WellFormed(turns)
    {
      turns := [];
    }

    /** The two appends of a successful query_documents. */
    method Record(question: string, answer: string)
      modifies this
      ensures turns == old(turns) + [Turn(UserRole, question), Turn(AssistantRole, answer)]
      ensures old(WellFormed(turns)) ==> WellFormed(turns)
    {
      turns := turns + [Turn(UserRole, question)];
      turns := turns + [Turn(AssistantRole, answer)];
    }

    /** reset_history: clears the log and both text boxes. */
    method Reset() returns (questionBox: string, answerBox: string)
      modifies this
      ensures turns == [] && WellFormed(turns)
      ensures questionBox == "" && answerBox == ""
    {
      turns := [];
      questionBox, answerBox := "", "";
    }

    /** format_history, accumulating the text line by line. */
    method FormatHistory() returns (text: string)
      ensures text == History(turns)
      ensures text == NoHistory <==> turns == []
    {
      HistoryIsPlaceholderIffEmpty(turns);
      if turns == [] {
        return NoHistory;
      }
      var w := if |turns| <= WindowSize then turns else turns[|turns| - WindowSize..];
      assert w == Window(turns);
      text := "";
      var i := 0;
      while i < |w|
        invariant 0 <= i <= |w|
        invariant text == Lines(w[..i])
      {
        LinesStep(w, i);
        if w[i].Turn? {
          text := text + (w[i].role + ": " + w[i].content + "\n");
        }
        i := i + 1;
      }
      assert w[..|w|] == w;
    }
  }
}
