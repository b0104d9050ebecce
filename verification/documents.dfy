/** Types shared by the two front ends: uploaded files whose text extraction
    (UTF-8 decoding, PDF page extraction) is done by libraries outside the
    model, and embedding vectors produced by an opaque sentence encoder. */
module Documents {

  /** A normalised embedding; its components are never inspected. */
  type Vector = seq<real>

  /** The outcome of reading an uploaded file's text: the extracted text, or
      the message of the exception the reader raised. */
  datatype Extraction = Extracted(text: string) | ExtractionFailed(message: string)

  /** An uploaded file: its name and what reading it would give. */
  datatype UploadedFile = UploadedFile(name: string, content: Extraction)

  /** What `embed_texts` did: the vectors, or the message of the exception
      the encoder or the normalisation raised. */
  datatype Embedding = Embedded(vectors: seq<Vector>) | EmbedFailed(message: string)

  /** The sentence encoder followed by normalisation: texts to vectors. */
  type Embedder = seq<string> -> Embedding

  /** When the encoder succeeds it returns one vector per text, as
      `model.encode` does. */
  ghost predicate OneVectorPerText(embed: Embedder)
  {
    forall texts :: embed(texts).Embedded? ==> |embed(texts).vectors| == |texts|
  }
}
