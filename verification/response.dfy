/** Answering a question (app.py): the context block built from the retrieved
    chunks, the de-duplicated source list, the text returned to the user and
    the log update of query_documents. Retrieval and generation are inputs. */
module Response {
  import opened Common
  import opened Conversation

  /** A retrieved chunk: its text and its metadata dict. */
  datatype Doc = Doc(pageContent: string, metadata: Metadata)

  const ChunkSeparator := "\n\n"
  const ErrorPrefix := "Erreur: "
  const SourcesHeader := "\n\n---\n\n\U{1F4DA} **Sources utilisées:**\n"

  function Contents(docs: seq<Doc>): (r: seq<string>)
    ensures |r| == |docs| && forall i :: 0 <= i < |docs| ==> r[i] == docs[i].pageContent
  {
    seq(|docs|, i requires 0 <= i < |docs| => docs[i].pageContent)
  }

  /** format_docs: the chunk texts separated by a blank line. */
  function FormatDocs(docs: seq<Doc>): (r: string)
    ensures docs == [] ==> r == ""
    ensures |docs| == 1 ==> r == docs[0].pageContent
  {
    Join(Contents(docs), ChunkSeparator)
  }

  /** Every chunk text appears unchanged in the context block, in retrieval
      order, and consecutive chunks are separated by exactly a blank line. */
  lemma FormatDocsPlacesChunk(docs: seq<Doc>, i: nat)
    requires i < |docs|
    ensures var o := JoinOffset(Contents(docs), ChunkSeparator, i);
      && o + |docs[i].pageContent| <= |FormatDocs(docs)|
      && FormatDocs(docs)[o..o + |docs[i].pageContent|] == docs[i].pageContent
    ensures i + 1 < |docs| ==>
      var o := JoinOffset(Contents(docs), ChunkSeparator, i) + |docs[i].pageContent|;
      && JoinOffset(Contents(docs), ChunkSeparator, i + 1) == o + 2
      && o + 2 <= |FormatDocs(docs)|
      && FormatDocs(docs)[o..o + 2] == ChunkSeparator
  {
    JoinPlacesPart(Contents(docs), ChunkSeparator, i);
    if i + 1 < |docs| {
      JoinPlacesSeparator(Contents(docs), ChunkSeparator, i);
    }
  }

  /** The context block is as long as the chunk texts plus one separator between
      each two of them. */
  lemma FormatDocsLength(docs: seq<Doc>)
    requires docs != []
    ensures |FormatDocs(docs)| + 2 == JoinOffset(Contents(docs), ChunkSeparator, |docs|)
  {
    JoinLength(Contents(docs), ChunkSeparator);
  }

  function SourceOf(d: Doc): string {
    SourceLabel(d.metadata)
  }

  function SourceLabels(docs: seq<Doc>): (r: seq<string>)
    ensures |r| == |docs| && forall i :: 0 <= i < |docs| ==> r[i] == SourceOf(docs[i])
  {
    seq(|docs|, i requires 0 <= i < |docs| => SourceOf(docs[i]))
  }

  /** The set of sources of the retrieved chunks. */
  function SourceSet(docs: seq<Doc>): set<string> {
    set d | d in docs :: SourceOf(d)
  }

  /** list(set(...)) of the source labels. Python leaves the order to the set's
      iteration; this model lists each source at its first occurrence. */
  function Sources(docs: seq<Doc>): seq<string> {
    Distinct(SourceLabels(docs))
  }

  /** The source list names every source once and nothing else. */
  lemma SourcesAreTheDistinctSources(docs: seq<Doc>)
    ensures NoDup(Sources(docs))
    ensures forall s :: s in Sources(docs) <==> s in SourceSet(docs)
    ensures |Sources(docs)| == |SourceSet(docs)|
  {
    var srcs := Sources(docs);
    var labels := SourceLabels(docs);
    forall s ensures s in labels <==> s in SourceSet(docs) {
      if s in labels {
        var i :| 0 <= i < |labels| && labels[i] == s;
        assert docs[i] in docs;
      }
    }
    NoDupCardinality(srcs);
    assert (set x | x in srcs) == SourceSet(docs);
  }

  /** The bullet line of one source. */
  function Bullet(source: string): string {
    "\U{2022} " + source + "\n"
  }

  function BulletLines(sources: seq<string>): (r: seq<string>)
    ensures |r| == |sources| && forall i :: 0 <= i < |sources| ==> r[i] == Bullet(sources[i])
  {
    seq(|sources|, i requires 0 <= i < |sources| => Bullet(sources[i]))
  }

  /** The source can be read back from its bullet line. */
  lemma BulletInjective(s: string, t: string)
    requires Bullet(s) == Bullet(t)
    ensures s == t
  {
    assert s == Bullet(s)[2..|Bullet(s)| - 1];
    assert t == Bullet(t)[2..|Bullet(t)| - 1];
  }

  /** For any duplicate-free listing of the retrieved sources (whatever order a
      set gives), there is one bullet line per distinct source, no line twice,
      and a bullet line exactly for the retrieved sources. */
  lemma OneBulletPerSource(docs: seq<Doc>, sources: seq<string>)
    requires NoDup(sources)
    requires forall s :: s in sources <==> s in SourceSet(docs)
    ensures |BulletLines(sources)| == |SourceSet(docs)|
    ensures NoDup(BulletLines(sources))
    ensures forall s :: Bullet(s) in BulletLines(sources) <==> s in SourceSet(docs)
  {
    var lines := BulletLines(sources);
    NoDupCardinality(sources);
    assert (set x | x in sources) == SourceSet(docs);
    forall i, j | 0 <= i < j < |lines| ensures lines[i] != lines[j] {
      if lines[i] == lines[j] {
        BulletInjective(sources[i], sources[j]);
      }
    }
    forall s ensures Bullet(s) in lines <==> s in SourceSet(docs) {
      if Bullet(s) in lines {
        var i :| 0 <= i < |lines| && lines[i] == Bullet(s);
        BulletInjective(sources[i], s);
      }
      if s in SourceSet(docs) {
        var i :| 0 <= i < |sources| && sources[i] == s;
        assert lines[i] == Bullet(s);
      }
    }
  }

  /** The response text: the answer, the sources header, one bullet per source. */
  method FormatResponse(answer: string, sources: seq<string>) returns (response: string)
    ensures response == answer + SourcesHeader + ConcatMap(sources, Bullet)
    ensures response[..|answer|] == answer
  {
    response := answer + SourcesHeader;
    var i := 0;
    while i < |sources|
      invariant 0 <= i <= |sources|
      invariant response == answer + SourcesHeader + ConcatMap(sources[..i], Bullet)
    {
      assert sources[..i + 1][..i] == sources[..i];
      response := response + Bullet(sources[i]);
      i := i + 1;
    }
    assert sources[..|sources|] == sources;
  }

  /** The answer of the RAG chain: the prompt is filled with the context block of
      the first retrieval, the history and the question, then generated on. */
  function RagAnswer(retrieved: Result<seq<Doc>>, history: string, question: string,
                     generate: (string, string, string) -> Result<string>): Result<string>
  {
    match retrieved
    case Failure(e) => Failure(e)
    case Success(docs) => generate(FormatDocs(docs), history, question)
  }

  /** query_documents. `retrieved` is what the chain's retriever returns,
      `generate` the language model on the filled prompt, `retrievedAgain` the
      second retrieval that lists the sources; each may fail. */
  method QueryDocuments(log: ConversationLog, question: string, retrieved: Result<seq<Doc>>,
                        generate: (string, string, string) -> Result<string>,
                        retrievedAgain: Result<seq<Doc>>) returns (response: string)
    modifies log
    ensures var answer := RagAnswer(retrieved, History(old(log.turns)), question, generate);
      && (answer.Failure? ==>
            log.turns == old(log.turns) && response == ErrorPrefix + answer.error)
      && (answer.Success? ==>
            log.turns == old(log.turns) + [Turn(UserRole, question), Turn(AssistantRole, answer.value)])
      && (answer.Success? && retrievedAgain.Failure? ==>
            response == ErrorPrefix + retrievedAgain.error)
      && (answer.Success? && retrievedAgain.Success? ==>
            response == answer.value + SourcesHeader
                        + ConcatMap(Sources(retrievedAgain.value), Bullet))
    ensures old(WellFormed(log.turns)) ==> WellFormed(log.turns)
  {
    var history := log.FormatHistory();
    var answer := if retrieved.Failure? then Failure(retrieved.error)
                  else generate(FormatDocs(retrieved.value), history, question);
    if answer.Failure? {
      return ErrorPrefix + answer.error;
    }
    log.Record(question, answer.value);
    if retrievedAgain.Failure? {
      return ErrorPrefix + retrievedAgain.error;
    }
    var sources := Sources(retrievedAgain.value);
    response := FormatResponse(answer.value, sources);
  }
}
