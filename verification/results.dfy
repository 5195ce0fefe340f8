/** The records that flow through the retrieval engine: a ranked hit from one
    retriever, and a fused hit carrying the list of retrievers that found it. */
module Results {

  /** The two metadata fields the engine and the server read; the empty string
      stands for an absent or empty field (both are falsy in the source). */
  datatype Metadata = Metadata(content: string, text: string)

  /** Which retriever produced a hit: the source labels are "vector" and "bm25". */
  datatype Source = Vector | Bm25 {
    function Label(): string {
      match this
      case Vector => "vector"
      case Bm25 => "bm25"
    }
  }

  /** A match as the vector index returns it, before the engine labels it. */
  datatype Match = Match(id: string, score: real, metadata: Metadata)

  /** One ranked match from the vector index or from the BM25 index. */
  datatype Hit = Hit(id: string, score: real, metadata: Metadata, namespace: string, source: Source)

  /** A fused result: the hit's own fields, the combined score in place of the
      original one, and the sources that contributed, in contribution order. */
  datatype Fused = Fused(id: string, score: real, metadata: Metadata, namespace: string,
                         source: Source, sources: seq<Source>)

  function FusedScore(f: Fused): real {
    f.score
  }

  function HitScore(h: Hit): real {
    h.score
  }

  function FusedId(f: Fused): string {
    f.id
  }

  function HitIds(hits: seq<Hit>): (r: seq<string>)
    ensures |r| == |hits|
    ensures forall i :: 0 <= i < |hits| ==> r[i] == hits[i].id
  {
    if |hits| == 0 then [] else [hits[0].id] + HitIds(hits[1..])
  }
}
