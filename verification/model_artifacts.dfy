/**
 * `POST /models/upload` (backend/app/api/routes/model_artifacts.py): a trained model file
 * and its JSON metadata are checked in a fixed order (JSON syntax, metadata schema, an
 * empty file, the 64 MiB limit); the first failed check decides the HTTP error and
 * nothing is stored, otherwise exactly one `model_artifact` row is added and echoed.
 */
module ModelArtifacts {

  import opened Common
  import opened JsonValue
  import opened Records
  import opened Text

  /** `_MAX_UPLOAD_BYTES`: 64 MiB. */
  const MaxUploadBytes: nat := 64 * 1024 * 1024

  /** A SHA-256 digest: 32 bytes. */
  type Digest = d: seq<Byte> | |d| == 32 witness seq(32, _ => 0 as Byte)

  /**
   * The library calls the route makes, whose internals are not modelled: `json.loads`
   * (None when it raises JSONDecodeError), the datetime parsing inside the metadata
   * validator, and the SHA-256 digest.
   */
  datatype Library = Library(
    loads: string -> Option<Json>,
    parseDatetime: Json -> Option<int>,
    sha256: seq<Byte> -> Digest)

  /** The `detail` of an HTTPException: a message, or the validator's errors. */
  datatype Detail = Message(text: string) | ValidationErrors(errors: SchemaError)

  datatype HttpError = HttpError(status: int, detail: Detail)

  // ---------------------------------------------------------------------------
  // `hexdigest()`
  // ---------------------------------------------------------------------------

  /** A string of lower-case hexadecimal digits. */
  predicate IsHex(s: string) {
    forall i :: 0 <= i < |s| ==> IsHexDigit(s[i])
  }

  /** The value of a lower-case hexadecimal digit. */
  function HexValue(c: char): (n: nat)
    requires IsHexDigit(c)
    ensures n < 16
  {
    if c <= '9' then c as int - '0' as int else c as int - 'a' as int + 10
  }

  /** Two lower-case hexadecimal digits per byte, high nibble first. */
  function HexDigest(bytes: seq<Byte>): (s: string)
    ensures |s| == |bytes| + |bytes| && |s| % 2 == 0 && IsHex(s)
  {
    if bytes == [] then ""
    else
      var b := bytes[|bytes| - 1] as nat;
      HexDigest(bytes[..|bytes| - 1]) + [HexDigit(b / 16), HexDigit(b % 16)]
  }

  /** Reads a string of lower-case hexadecimal digit pairs back into bytes. */
  function Unhex(s: string): seq<Byte>
    requires |s| % 2 == 0 && IsHex(s)
  {
    if s == [] then []
    else
      var n := |s|;
      Unhex(s[..n - 2]) + [(HexValue(s[n - 2]) * 16 + HexValue(s[n - 1])) as Byte]
  }

  lemma HexDigitValue(n: nat)
    requires n < 16
    ensures HexValue(HexDigit(n)) == n
  {
  }

  /** A byte's two hex digits read back as the byte. */
  lemma NibbleDigits(x: Byte)
    ensures (HexValue(HexDigit(x as nat / 16)) * 16 + HexValue(HexDigit(x as nat % 16))) as Byte == x
  {
    HexDigitValue(x as nat / 16);
    HexDigitValue(x as nat % 16);
  }

  /** The hex digest is faithful: it reads back as the digest bytes. */
  lemma {:induction false} HexDigestRoundTrip(bytes: seq<Byte>)
    ensures Unhex(HexDigest(bytes)) == bytes
  {
    if bytes != [] {
      var init := bytes[..|bytes| - 1];
      var x := bytes[|bytes| - 1];
      var hi := HexDigit(x as nat / 16);
      var lo := HexDigit(x as nat % 16);
      HexDigestRoundTrip(init);
      var s := HexDigest(bytes);
      assert s == HexDigest(init) + [hi, lo];
      assert s[..|s| - 2] == HexDigest(init);
      assert s[|s| - 2] == hi && s[|s| - 1] == lo;
      assert Unhex(s) == Unhex(HexDigest(init)) + [(HexValue(hi) * 16 + HexValue(lo)) as Byte];
      NibbleDigits(x);
      assert init + [x] == bytes;
    }
  }

  // ---------------------------------------------------------------------------
  // `upload_model_artifact`
  // ---------------------------------------------------------------------------

  /**
   * The row the route stores for an upload, or the HTTP error of the first check that
   * fails. `modelBytes` is what `model_file.file.read()` returns and `contentType` the
   * file's declared type.
   */
  function UploadDecision(metadataJson: string, modelBytes: seq<Byte>, contentType: Option<string>, lib: Library): Result<ModelArtifact, HttpError> {
    var doc := lib.loads(metadataJson);
    if doc.None? then Err(HttpError(422, Message("metadata_json must be valid JSON.")))
    else
      var metadata := ValidateUploadMetadata(doc.value, lib.parseDatetime);
      if metadata.Err? then Err(HttpError(422, ValidationErrors(metadata.error)))
      else if |modelBytes| == 0 then Err(HttpError(400, Message("model_file must not be empty.")))
      else if |modelBytes| > MaxUploadBytes then Err(HttpError(413, Message("model_file exceeds 67108864 bytes.")))
      else
        var m := metadata.value;
        Ok(ModelArtifact(
          m.clientVersionId, m.sourceRunId, m.trainedAtUtc, m.algorithm,
          m.hyperparameters, m.metrics, m.datasetInfo, m.notes,
          contentType, |modelBytes|, HexDigest(lib.sha256(modelBytes)), modelBytes))
  }

  /** `ModelArtifactUploadResponse` built from the stored row. */
  function ResponseOf(a: ModelArtifact): (r: UploadResponse)
    ensures r.clientVersionId == a.clientVersionId && r.sourceRunId == a.sourceRunId
    ensures r.algorithm == a.algorithm && r.modelSizeBytes == a.modelSizeBytes
    ensures r.modelSha256 == a.modelSha256 && r.contentType == a.contentType
  {
    UploadResponse(a.clientVersionId, a.sourceRunId, a.algorithm, a.modelSizeBytes, a.modelSha256, a.contentType)
  }

  /**
   * The checks run in order and the first failure decides the error: invalid JSON and an
   * invalid schema give 422, an empty file 400, a file over 64 MiB 413. A file of exactly
   * 64 MiB passes.
   */
  lemma UploadChecks(metadataJson: string, modelBytes: seq<Byte>, contentType: Option<string>, lib: Library)
    ensures var r := UploadDecision(metadataJson, modelBytes, contentType, lib);
            var doc := lib.loads(metadataJson);
            && (doc.None? ==> r == Err(HttpError(422, Message("metadata_json must be valid JSON."))))
            && (doc.Some? && ValidateUploadMetadata(doc.value, lib.parseDatetime).Err?
                ==> r == Err(HttpError(422, ValidationErrors(ValidateUploadMetadata(doc.value, lib.parseDatetime).error))))
            && (doc.Some? && ValidateUploadMetadata(doc.value, lib.parseDatetime).Ok? && |modelBytes| == 0
                ==> r == Err(HttpError(400, Message("model_file must not be empty."))))
            && (doc.Some? && ValidateUploadMetadata(doc.value, lib.parseDatetime).Ok? && |modelBytes| > 67108864
                ==> r == Err(HttpError(413, Message("model_file exceeds 67108864 bytes."))))
            && (r.Ok? <==> doc.Some? && ValidateUploadMetadata(doc.value, lib.parseDatetime).Ok?
                           && 1 <= |modelBytes| <= 67108864)
  {
  }

  /** Metadata without `algorithm` is refused with 422 whatever the file. */
  lemma MissingAlgorithmRejected(metadataJson: string, modelBytes: seq<Byte>, contentType: Option<string>, lib: Library)
    requires lib.loads(metadataJson).Some? && lib.loads(metadataJson).value.JObj?
    requires "algorithm" !in lib.loads(metadataJson).value.fields
    ensures UploadDecision(metadataJson, modelBytes, contentType, lib).Err?
    ensures UploadDecision(metadataJson, modelBytes, contentType, lib).error.status == 422
  {
  }

  /**
   * An accepted upload stores the metadata fields as validated, the file itself, its size
   * in bytes (1 to 64 MiB) and the 64-character hex digest of its SHA-256, which reads back
   * as the digest; with a content type of at most 255 characters the row meets every
   * column constraint.
   */
  lemma UploadStored(metadataJson: string, modelBytes: seq<Byte>, contentType: Option<string>, lib: Library)
    requires UploadDecision(metadataJson, modelBytes, contentType, lib).Ok?
    ensures var a := UploadDecision(metadataJson, modelBytes, contentType, lib).value;
            var m := ValidateUploadMetadata(lib.loads(metadataJson).value, lib.parseDatetime).value;
            && a.modelBlob == modelBytes && a.modelSizeBytes == |modelBytes|
            && 1 <= a.modelSizeBytes <= MaxUploadBytes
            && |a.modelSha256| == 64 && Unhex(a.modelSha256) == lib.sha256(modelBytes)
            && a.contentType == contentType
            && a.clientVersionId == m.clientVersionId && a.sourceRunId == m.sourceRunId
            && a.trainedAtUtc == m.trainedAtUtc && a.algorithm == m.algorithm
            && a.hyperparameters == m.hyperparameters && a.metrics == m.metrics
            && a.datasetInfo == m.datasetInfo && a.notes == m.notes
            && (contentType.Some? ==> |contentType.value| <= 255 ==> ValidArtifact(a))
  {
    HexDigestRoundTrip(lib.sha256(modelBytes));
  }

  /** The `model_artifact` table: the rows stored so far, in insertion order. */
  class ArtifactTable {
    var rows: seq<ModelArtifact>

    constructor()
      ensures rows == []
    {
      rows := [];
    }

    /**
     * `upload_model_artifact`: on success exactly one row is appended and the response
     * echoes it; on any failure the table is left as it was.
     */
    method Upload(metadataJson: string, modelBytes: seq<Byte>, contentType: Option<string>, lib: Library)
      returns (r: Result<UploadResponse, HttpError>)
      modifies this
      ensures var d := UploadDecision(metadataJson, modelBytes, contentType, lib);
              && (d.Err? ==> r == Err(d.error) && rows == old(rows))
              && (d.Ok? ==> r == Ok(ResponseOf(d.value)) && rows == old(rows) + [d.value])
    {
      var d := UploadDecision(metadataJson, modelBytes, contentType, lib);
      if d.Err? {
        return Err(d.error);
      }
      rows := rows + [d.value];
      return Ok(ResponseOf(d.value));
    }
  }
}
