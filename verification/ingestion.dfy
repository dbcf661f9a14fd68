/** Building the chunk collection (main.py): the extension filter, the
    per-file conversion that may fail, the two parallel lists of chunk texts
    and metadata dicts, and the exit when nothing was produced. Listing the
    folder, Docling's conversion and the hybrid chunker are inputs: `files`
    is the folder listing in glob order and `chunkFile` gives a file's chunk
    texts, or None when conversion or chunking raises. */
module Ingestion {
  import opened Common

  const DocxExtension := ".docx"
  const PdfExtension := ".pdf"
  /** The exit status when no chunk was produced. */
  const NothingProducedStatus := 1

  /** Index of the last c among the first n characters of s, or -1. */
  function LastIndexBefore(s: string, c: char, n: nat): (r: int)
    requires n <= |s|
    ensures -1 <= r < n
    ensures r >= 0 ==> s[r] == c
    ensures forall i :: r < i < n ==> s[i] != c
  {
    if n == 0 then -1
    else if s[n - 1] == c then n - 1
    else LastIndexBefore(s, c, n - 1)
  }

  /** Index of the last c in s, or -1 (str.rfind). */
  function RFind(s: string, c: char): (r: int)
    ensures -1 <= r < |s|
    ensures r >= 0 ==> s[r] == c
    ensures forall i :: r < i < |s| ==> s[i] != c
  {
    LastIndexBefore(s, c, |s|)
  }

  /** pathlib's suffix of a file name: from the last dot on, unless that dot
      is the first or the last character, or there is none. */
  function Suffix(name: string): (r: string)
    ensures r != [] ==>
      && 2 <= |r| < |name|
      && r == name[|name| - |r|..]
      && r[0] == '.'
      && forall k :: 1 <= k < |r| ==> r[k] != '.'
  {
    var d := RFind(name, '.');
    if 0 < d < |name| - 1 then name[d..] else []
  }

  /** The suffix is empty exactly when every dot of the name other than the
      first and the last character is followed by another dot. */
  lemma SuffixEmptyIff(name: string)
    ensures Suffix(name) == [] <==>
      forall i :: 0 < i < |name| - 1 && name[i] == '.' ==> '.' in name[i + 1..]
  {
  }

  function LowerChar(c: char): char {
    if 'A' <= c <= 'Z' then (c as int + 32) as char else c
  }

  /** str.lower on the ASCII letters. */
  function Lower(s: string): string {
    seq(|s|, i requires 0 <= i < |s| => LowerChar(s[i]))
  }

  lemma LowerChars(s: string)
    ensures |Lower(s)| == |s| && forall i :: 0 <= i < |s| ==> Lower(s)[i] == LowerChar(s[i])
  {
  }

  /** The test of the ingestion loop: the lowercased pathlib suffix is .docx
      or .pdf. */
  predicate SuffixFilter(name: string) {
    Lower(Suffix(name)) in {DocxExtension, PdfExtension}
  }

  /** The name ends with the extension, case aside, after at least one other
      character. */
  predicate EndsWithExtension(name: string, ext: string) {
    |name| > |ext| && Lower(name[|name| - |ext|..]) == ext
  }

  /** The files the loop converts: those whose name ends in .docx or .pdf, in
      any case, after a non-empty stem. */
  predicate Supported(name: string) {
    EndsWithExtension(name, DocxExtension) || EndsWithExtension(name, PdfExtension)
  }

  /** The suffix test accepts exactly the supported names: ".pdf" and
      "notes.pdf.txt" are skipped, "Guide.PDF" and "a..docx" are kept. */
  lemma SuffixFilterIffSupported(name: string)
    ensures SuffixFilter(name) <==> Supported(name)
  {
    if SuffixFilter(name) {
      FilteredNameIsSupported(name);
    }
    if EndsWithExtension(name, DocxExtension) {
      SuffixOfExtension(name, DocxExtension);
    }
    if EndsWithExtension(name, PdfExtension) {
      SuffixOfExtension(name, PdfExtension);
    }
  }

  lemma FilteredNameIsSupported(name: string)
    requires SuffixFilter(name)
    ensures Supported(name)
  {
    var s := Suffix(name);
    LowerChars(s);
    assert name[|name| - |s|..] == s;
  }

  /** An extension made of a dot and letters is the whole suffix of a name that
      ends with it after a non-empty stem. */
  lemma SuffixOfExtension(name: string, ext: string)
    requires ext == DocxExtension || ext == PdfExtension
    requires EndsWithExtension(name, ext)
    ensures Suffix(name) == name[|name| - |ext|..]
  {
    var tail := name[|name| - |ext|..];
    var d := |name| - |ext|;
    LowerChars(tail);
    assert LowerChar(tail[0]) == '.';
    assert name[d] == '.';
    forall i | d < i < |name| ensures name[i] != '.' {
      assert LowerChar(tail[i - d]) == ext[i - d] != '.';
    }
    assert RFind(name, '.') == d;
  }

  /** The extension test of the loop body, on one folder entry. */
  method CheckExtension(name: string) returns (keep: bool)
    ensures keep <==> Supported(name)
  {
    SuffixFilterIffSupported(name);
    keep := SuffixFilter(name);
  }

  /** One chunk: its text and the name of the file it came from. */
  datatype Chunk = Chunk(text: string, source: string)

  /** How many chunks a folder entry yields. */
  function ChunkCount(name: string, chunkFile: string -> Option<seq<string>>): nat {
    if Supported(name) && chunkFile(name).Some? then |chunkFile(name).value| else 0
  }

  /** The chunks one folder entry contributes: none when the filter skips it or
      its conversion raises, otherwise all its chunk texts, in chunker order. */
  function Contribution(name: string, chunkFile: string -> Option<seq<string>>): (r: seq<Chunk>)
    ensures !Supported(name) || chunkFile(name).None? ==> r == []
    ensures |r| == ChunkCount(name, chunkFile)
  {
    if Supported(name) && chunkFile(name).Some? then
      var texts := chunkFile(name).value;
      seq(|texts|, k requires 0 <= k < |texts| => Chunk(texts[k], name))
    else []
  }

  /** A file that passes the filter and converts contributes its chunk texts
      unchanged and in chunker order, each tagged with the file's name. */
  lemma ContributionChunks(name: string, chunkFile: string -> Option<seq<string>>)
    requires Supported(name) && chunkFile(name).Some?
    ensures var r := Contribution(name, chunkFile);
      forall k :: 0 <= k < |r| ==> r[k] == Chunk(chunkFile(name).value[k], name)
  {
  }

  /** Every chunk the loop produces over the listing, in order. */
  function Produced(files: seq<string>, chunkFile: string -> Option<seq<string>>): seq<Chunk> {
    ConcatMap(files, name => Contribution(name, chunkFile))
  }

  function TotalChunkCount(files: seq<string>, chunkFile: string -> Option<seq<string>>): nat {
    if files == [] then 0
    else TotalChunkCount(files[..|files| - 1], chunkFile) + ChunkCount(files[|files| - 1], chunkFile)
  }

  /** The output of two consecutive listings is the output of the first
      followed by the output of the second. */
  lemma ProducedAppend(a: seq<string>, b: seq<string>, chunkFile: string -> Option<seq<string>>)
    ensures Produced(a + b, chunkFile) == Produced(a, chunkFile) + Produced(b, chunkFile)
  {
    ConcatMapAppend(a, b, name => Contribution(name, chunkFile));
  }

  /** Chunks are grouped by file in listing order: the chunks of the entries
      before file i, then file i's own chunks, then those of the entries after. */
  lemma ProducedGroupsByFile(files: seq<string>, i: nat, chunkFile: string -> Option<seq<string>>)
    requires i < |files|
    ensures Produced(files, chunkFile) ==
      Produced(files[..i], chunkFile) + Contribution(files[i], chunkFile) + Produced(files[i + 1..], chunkFile)
  {
    var mid := files[..i + 1];
    assert mid[..i] == files[..i];
    assert files == mid + files[i + 1..];
    ProducedAppend(mid, files[i + 1..], chunkFile);
  }

  /** The number of chunks is the sum of the chunk counts of the files that
      passed the filter and converted. */
  lemma {:induction false} ProducedCount(files: seq<string>, chunkFile: string -> Option<seq<string>>)
    ensures |Produced(files, chunkFile)| == TotalChunkCount(files, chunkFile)
  {
    if files != [] {
      ProducedCount(files[..|files| - 1], chunkFile);
    }
  }

  /** Nothing is produced exactly when no entry of the listing yields a chunk. */
  lemma NothingProducedIff(files: seq<string>, chunkFile: string -> Option<seq<string>>)
    ensures Produced(files, chunkFile) == [] <==>
      forall f :: f in files ==> ChunkCount(f, chunkFile) == 0
  {
    ProducedCount(files, chunkFile);
    TotalZeroIff(files, chunkFile);
  }

  lemma {:induction false} TotalZeroIff(files: seq<string>, chunkFile: string -> Option<seq<string>>)
    ensures TotalChunkCount(files, chunkFile) == 0 <==>
      forall f :: f in files ==> ChunkCount(f, chunkFile) == 0
  {
    if files != [] {
      var init := files[..|files| - 1];
      TotalZeroIff(init, chunkFile);
      assert files == init + [files[|files| - 1]];
    }
  }

  /** Every chunk comes from an entry of the listing that passed the filter and
      converted without raising. */
  lemma {:induction false} ProducedSources(files: seq<string>, chunkFile: string -> Option<seq<string>>)
    ensures forall c :: c in Produced(files, chunkFile) ==>
      c.source in files && Supported(c.source) && chunkFile(c.source).Some?
  {
    if files != [] {
      var init, last := files[..|files| - 1], files[|files| - 1];
      ProducedSources(init, chunkFile);
      assert files == init + [last];
    }
  }

  /** The metadata dict stored for a chunk. */
  function SourceTag(name: string): (md: Metadata)
    ensures SourceLabel(md) == name
  {
    map["source" := name]
  }

  function Texts(chunks: seq<Chunk>): (r: seq<string>)
    ensures |r| == |chunks| && forall i :: 0 <= i < |chunks| ==> r[i] == chunks[i].text
  {
    seq(|chunks|, i requires 0 <= i < |chunks| => chunks[i].text)
  }

  function Tags(chunks: seq<Chunk>): (r: seq<Metadata>)
    ensures |r| == |chunks| && forall i :: 0 <= i < |chunks| ==> r[i] == SourceTag(chunks[i].source)
  {
    seq(|chunks|, i requires 0 <= i < |chunks| => SourceTag(chunks[i].source))
  }

  /** all_chunks and chunk_metadatas, grown side by side. */
  class ChunkStore {
    var allChunks: seq<string>
    var chunkMetadatas: seq<Metadata>

    /** The two lists always have the same length. */
    predicate Valid()
      reads this
    {
      |allChunks| == |chunkMetadatas|
    }

    constructor ()
      ensures allChunks == [] && chunkMetadatas == []
      ensures Valid()
    {
      allChunks := [];
      chunkMetadatas := [];
    }

    /** Appends the chunk texts of one file, each with the file's source tag. */
    method AddChunks(name: string, texts: seq<string>)
      modifies this
      ensures allChunks == old(allChunks) + texts
      ensures chunkMetadatas == old(chunkMetadatas) + seq(|texts|, _ => SourceTag(name))
      ensures old(Valid()) ==> Valid()
    {
      ghost var chunks0, tags0 := allChunks, chunkMetadatas;
      var k := 0;
      while k < |texts|
        invariant 0 <= k <= |texts|
        invariant allChunks == chunks0 + texts[..k]
        invariant chunkMetadatas == tags0 + seq(k, _ => SourceTag(name))
      {
        assert texts[..k + 1] == texts[..k] + [texts[k]];
        allChunks := allChunks + [texts[k]];
        chunkMetadatas := chunkMetadatas + [SourceTag(name)];
        k := k + 1;
      }
      assert texts[..|texts|] == texts;
    }
  }

  lemma ProducedStep(files: seq<string>, i: nat, chunkFile: string -> Option<seq<string>>)
    requires i < |files|
    ensures Produced(files[..i + 1], chunkFile) == Produced(files[..i], chunkFile) + Contribution(files[i], chunkFile)
    ensures ChunkCount(files[i], chunkFile) == 0 ==> Produced(files[..i + 1], chunkFile) == Produced(files[..i], chunkFile)
  {
    var pre := files[..i + 1];
    assert pre[..i] == files[..i] && pre[i] == files[i];
    assert Produced(pre, chunkFile) == Produced(files[..i], chunkFile) + Contribution(files[i], chunkFile);
  }

  /** What one converted file adds to the two lists. */
  lemma StoreStep(before: seq<Chunk>, name: string, chunkFile: string -> Option<seq<string>>)
    requires Supported(name) && chunkFile(name).Some?
    ensures Texts(before + Contribution(name, chunkFile)) == Texts(before) + chunkFile(name).value
    ensures Tags(before + Contribution(name, chunkFile))
         == Tags(before) + seq(|chunkFile(name).value|, _ => SourceTag(name))
  {
    ContributionChunks(name, chunkFile);
  }

  /** How the script ends: the exit when nothing was produced, or the texts and
      metadata dicts handed to the vector store. */
  datatype IngestOutcome =
    | Aborted(status: int)
    | Indexed(texts: seq<string>, metadatas: seq<Metadata>)

  /** The ingestion loop and the emptiness check. */
  method Ingest(files: seq<string>, chunkFile: string -> Option<seq<string>>)
    returns (outcome: IngestOutcome)
    ensures outcome.Aborted? <==> Produced(files, chunkFile) == []
    ensures outcome.Aborted? ==> outcome.status == NothingProducedStatus
    ensures outcome.Indexed? ==>
      && |outcome.texts| == |outcome.metadatas| == |Produced(files, chunkFile)|
      && forall i :: 0 <= i < |outcome.texts| ==>
           && outcome.texts[i] == Produced(files, chunkFile)[i].text
           && outcome.metadatas[i] == SourceTag(Produced(files, chunkFile)[i].source)
  {
    var store := new ChunkStore();
    var i := 0;
    while i < |files|
      invariant 0 <= i <= |files|
      invariant store.allChunks == Texts(Produced(files[..i], chunkFile))
      invariant store.chunkMetadatas == Tags(Produced(files[..i], chunkFile))
      invariant store.Valid()
    {
      var name := files[i];
      ProducedStep(files, i, chunkFile);
      var keep := CheckExtension(name);
      if keep {
        var converted := chunkFile(name);
        if converted.Some? {
          StoreStep(Produced(files[..i], chunkFile), name, chunkFile);
          store.AddChunks(name, converted.value);
        }
      }
      i := i + 1;
    }
    assert files[..|files|] == files;
    if |store.allChunks| == 0 {
      return Aborted(NothingProducedStatus);
    }
    return Indexed(store.allChunks, store.chunkMetadatas);
  }
}
