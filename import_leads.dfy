/** The import page: reading the chosen file into headers and rows, turning the rows
    into candidates once the mapping is confirmed, and sending the candidates to the
    store in batches of ten. */
module ImportLeads {
  import opened Wrappers
  import opened Seqs
  import opened Text
  import opened Csv
  import opened Leads
  import opened ColumnMapper
  import opened Validation
  import opened Store
  import opened Reals

  const BATCH_SIZE: nat := 10

  const NO_HEADERS := "No column headers found in the CSV file. Please ensure your CSV file has a header row."
  const NO_ROWS := "No data rows found in the CSV file."
  const READ_FAILED := "Failed to read file"
  const NO_VALID_LEADS := "No valid leads found after processing. Please check your data and mapping."

  /** `Error processing file: ${message}` */
  function ProcessError(message: string): string
  {
    "Error processing file: " + message
  }

  /** What `processFile` makes of a file's text: the parsed table, or the message of
      the error it throws. */
  function ProcessText(text: string): (r: Result<Table, string>)
  {
    var t := Parse(text);
    if |t.headers| == 0 then Err(NO_HEADERS)
    else if |t.data| == 0 then Err(NO_ROWS)
    else Ok(t)
  }

  /** A blank file is refused for its missing headers, a file with headers but no
      surviving row for its missing rows, and any other file gives its parsed table,
      with one value for every header in each row. */
  lemma ProcessTextSpec(text: string)
    ensures ProcessText(text) == Err(NO_HEADERS) <==> Trim(text) == []
    ensures ProcessText(text) == Err(NO_ROWS) <==> Trim(text) != [] && Parse(text).data == []
    ensures ProcessText(text).Ok? ==> ProcessText(text).value == Parse(text) && |Parse(text).data| >= 1
    ensures ProcessText(text).Ok? ==> forall r :: r in Parse(text).data ==> forall h :: h in r <==> h in Parse(text).headers
  {
    ParseHeadersIff(text);
    var lines := SplitLines(Trim(text));
    if Trim(lines[0]) != [] {
      RowsKeys(Headers(lines[0]), lines[1..]);
    }
  }

  /** The number of batches, `Math.ceil(n / 10)`. */
  function BatchCount(n: nat): nat
  {
    (n + BATCH_SIZE - 1) / BATCH_SIZE
  }

  /** Batch `i`: `slice(10 * i, min(10 * i + 10, n))`. */
  function Batch<T>(s: seq<T>, i: nat): (b: seq<T>)
    requires i < BatchCount(|s|)
    ensures 1 <= |b| <= BATCH_SIZE
  {
    var start := i * BATCH_SIZE;
    var end := if start + BATCH_SIZE < |s| then start + BATCH_SIZE else |s|;
    s[start..end]
  }

  /** The first `k` batches, in order. */
  function Batches<T>(s: seq<T>, k: nat): (r: seq<seq<T>>)
    requires k <= BatchCount(|s|)
    ensures |r| == k
    ensures forall i :: 0 <= i < k ==> r[i] == Batch(s, i)
  {
    if k == 0 then [] else Batches(s, k - 1) + [Batch(s, k - 1)]
  }

  /** The first `k` batches together are the first `min(10k, n)` items: sending the
      batches in order sends a prefix of the list, and all of them send the whole list. */
  lemma {:induction false} BatchesFlatten<T>(s: seq<T>, k: nat)
    requires k <= BatchCount(|s|)
    ensures Flatten(Batches(s, k)) == s[..if k * BATCH_SIZE < |s| then k * BATCH_SIZE else |s|]
  {
    if k > 0 {
      BatchesFlatten(s, k - 1);
      var start := (k - 1) * BATCH_SIZE;
      FlattenConcat(Batches(s, k - 1), [Batch(s, k - 1)]);
      assert Flatten([Batch(s, k - 1)]) == Batch(s, k - 1);
      assert s[..start] + Batch(s, k - 1) == s[..start + |Batch(s, k - 1)|];
    }
  }

  /** Every item goes out in exactly one batch: all the batches together give the list. */
  lemma AllBatches<T>(s: seq<T>)
    ensures Flatten(Batches(s, BatchCount(|s|))) == s
  {
    BatchesFlatten(s, BatchCount(|s|));
  }

  /** The records stored for the first `k` batches. */
  function Created(s: seq<Candidate>, k: nat, first: nat, now: string): seq<Lead>
    requires k <= BatchCount(|s|)
  {
    CreateAll(Flatten(Batches(s, k)), first, now)
  }

  /** The body of `processFile`'s `try`: parse the text, then throw when it has no
      headers or no rows. */
  method ReadTable(text: string) returns (outcome: Result<Table, string>)
    ensures outcome == ProcessText(text)
  {
    var headers, data := ParseCsv(text);
    if |headers| == 0 {
      outcome := Err(NO_HEADERS);
    } else if |data| == 0 {
      outcome := Err(NO_ROWS);
    } else {
      outcome := Ok(Table(headers, data));
    }
  }

  /** The page's state. */
  class ImportPage {
    var rawData: seq<Row>
    var fileHeaders: seq<string>
    var showMapping: bool
    var extractedLeads: seq<Candidate>
    var isProcessing: bool
    var isImporting: bool
    /** The progress bar, in percent. */
    var progress: real
    var error: Option<string>
    var success: bool

    constructor ()
      ensures rawData == [] && fileHeaders == [] && !showMapping && extractedLeads == []
      ensures !isProcessing && !isImporting && progress == 0.0 && error == None && !success
    {
      rawData, fileHeaders, showMapping, extractedLeads := [], [], false, [];
      isProcessing, isImporting, progress, error, success := false, false, 0.0, None, false;
    }

    /** `processFile(file)`; the browser's file reader is `read`, `None` when it fails. */
    method ProcessFile(read: Option<string>)
      modifies this
      ensures !isProcessing
      ensures read.None? ==> error == Some(ProcessError(READ_FAILED)) && progress == 25.0
      ensures read.Some? ==> match ProcessText(read.value)
        case Err(message) =>
          error == Some(ProcessError(message)) && progress == 75.0
        case Ok(t) =>
          error == None && progress == 100.0 && showMapping && fileHeaders == t.headers && rawData == t.data
      ensures !(read.Some? && ProcessText(read.value).Ok?) ==>
        rawData == old(rawData) && fileHeaders == old(fileHeaders) && showMapping == old(showMapping)
      ensures extractedLeads == old(extractedLeads) && isImporting == old(isImporting) && success == old(success)
    {
      isProcessing := true;
      progress := 0.0;
      error := None;
      progress := 25.0;
      if read.None? {
        error := Some(ProcessError(READ_FAILED));
        isProcessing := false;
        return;
      }
      progress := 50.0;
      var outcome := ReadTable(read.value);
      ShowOutcome(outcome);
      isProcessing := false;
    }

    /** The end of `processFile`'s `try` and its `catch`: a parsed table goes to the
      mapping step, a thrown message becomes the page's error. */
    method ShowOutcome(outcome: Result<Table, string>)
      modifies this
      ensures outcome.Err? ==> error == Some(ProcessError(outcome.error)) && progress == 75.0
      ensures outcome.Err? ==>
        rawData == old(rawData) && fileHeaders == old(fileHeaders) && showMapping == old(showMapping)
      ensures outcome.Ok? ==> error == old(error) && progress == 100.0 && showMapping
      ensures outcome.Ok? ==> fileHeaders == outcome.value.headers && rawData == outcome.value.data
      ensures extractedLeads == old(extractedLeads) && isImporting == old(isImporting) && success == old(success)
      ensures isProcessing == old(isProcessing)
    {
      progress := 75.0;
      match outcome {
        case Err(message) =>
          error := Some(ProcessError(message));
        case Ok(t) =>
          fileHeaders := t.headers;
          rawData := t.data;
          showMapping := true;
          progress := 100.0;
      }
    }

    /** `handleFileSelect(file)`: the state of a previous file is cleared first. */
    method HandleFileSelect(read: Option<string>)
      modifies this
      ensures extractedLeads == [] && !success
      ensures read.Some? && ProcessText(read.value).Ok? ==>
        error == None && showMapping
        && fileHeaders == Parse(read.value).headers && rawData == Parse(read.value).data
      ensures read.Some? && ProcessText(read.value).Ok? ==> progress == 100.0
      ensures !(read.Some? && ProcessText(read.value).Ok?) ==>
        error.Some? && rawData == [] && fileHeaders == [] && !showMapping
      ensures read.None? ==> error == Some(ProcessError(READ_FAILED)) && progress == 25.0
      ensures read.Some? && ProcessText(read.value).Err? ==>
        error == Some(ProcessError(ProcessText(read.value).error)) && progress == 75.0
      ensures !isProcessing && isImporting == old(isImporting)
    {
      rawData, fileHeaders, showMapping, extractedLeads := [], [], false, [];
      error, success := None, false;
      ProcessFile(read);
    }

    /** `handleMappingComplete(mapping)`: the candidates replace the extracted leads,
      unless none survives, which leaves them as they were and reports the error. */
    method HandleMappingComplete(m: Mapping) returns (skippedRows: nat)
      modifies this
      ensures !showMapping
      ensures skippedRows == SkippedCount(rawData, m)
      ensures |CleanRows(rawData, m)| + skippedRows == |rawData|
      ensures CleanRows(rawData, m) == [] ==> error == Some(NO_VALID_LEADS) && extractedLeads == old(extractedLeads)
      ensures CleanRows(rawData, m) != [] ==> error == None && extractedLeads == CleanRows(rawData, m)
      ensures rawData == old(rawData) && fileHeaders == old(fileHeaders) && success == old(success)
      ensures progress == old(progress) && isProcessing == old(isProcessing) && isImporting == old(isImporting)
    {
      showMapping := false;
      error := None;
      var cleanedData;
      cleanedData, skippedRows := CleanData(rawData, m);
      if |cleanedData| == 0 {
        error := Some(NO_VALID_LEADS);
        return;
      }
      extractedLeads := cleanedData;
    }

    /** `handleImport()`: the batches go to `bulkCreate` in order; `accept(i)` is the
      store's answer to batch `i` and `failure` the message of its error. The first
      refusal stops the loop and reports the error, leaving the success flag as it was;
      success is set only when every batch was stored. */
    method HandleImport(store: LeadStore, accept: nat -> bool, now: string, failure: string)
      requires store.Valid()
      modifies this, store
      ensures store.Valid()
      ensures store.leads == old(store.leads)
        + Created(extractedLeads, FirstFailure(BatchCount(|extractedLeads|), accept), old(store.nextId), now)
      ensures FirstFailure(BatchCount(|extractedLeads|), accept) == BatchCount(|extractedLeads|) ==>
        success && error == old(error)
      ensures FirstFailure(BatchCount(|extractedLeads|), accept) < BatchCount(|extractedLeads|) ==>
        success == old(success) && error == Some("Import failed: " + failure)
      ensures progress == ImportProgress(FirstFailure(BatchCount(|extractedLeads|), accept), BatchCount(|extractedLeads|))
      ensures store.campaigns == old(store.campaigns)
      ensures !isImporting
      ensures extractedLeads == old(extractedLeads) && rawData == old(rawData)
      ensures fileHeaders == old(fileHeaders) && showMapping == old(showMapping) && isProcessing == old(isProcessing)
    {
      isImporting := true;
      progress := 0.0;
      var total := BatchCount(|extractedLeads|);
      var stored := StoreBatches(store, extractedLeads, accept, now);
      if stored > 0 {
        progress := ImportProgress(stored, total);
      }
      if stored < total {
        error := Some("Import failed: " + failure);
      } else {
        success := true;
      }
      isImporting := false;
    }
  }

  /** The progress bar after `stored` of `total` batches: it moves to
      `(i + 1) / totalBatches * 100` after each stored batch, and stays at its
      starting 0 when none is stored. It reaches 100 exactly when every batch was
      stored. */
  function ImportProgress(stored: nat, total: nat): (p: real)
    requires stored <= total
    ensures 0.0 <= p <= 100.0
    ensures p == 0.0 <==> stored == 0
    ensures p == 100.0 <==> 0 < stored == total
    ensures 0 < stored ==> p * total as real == stored as real * 100.0
  {
    if stored == 0 then 0.0
    else
      ProgressBounds(stored, total);
      (stored as real / total as real) * 100.0
  }

  lemma ProgressBounds(stored: nat, total: nat)
    requires 0 < stored <= total
    ensures var q := stored as real / total as real;
      && q * total as real == stored as real
      && 0.0 < q <= 1.0
      && (q == 1.0 <==> stored == total)
  {
    var q := stored as real / total as real;
    assert q * total as real == stored as real;
    CancelFactor(q, 1.0, total as real);
    if q == 1.0 {
      assert stored as real == total as real;
    }
  }

  /** The loop of `handleImport`: batch `i` goes to `bulkCreate`, whose answer is
      `accept(i)`, until the first refusal. `stored` is the number of batches stored. */
  method StoreBatches(store: LeadStore, leads: seq<Candidate>, accept: nat -> bool, now: string)
    returns (stored: nat)
    requires store.Valid()
    modifies store
    ensures store.Valid()
    ensures stored == FirstFailure(BatchCount(|leads|), accept)
    ensures store.leads == old(store.leads) + Created(leads, stored, old(store.nextId), now)
    ensures store.campaigns == old(store.campaigns)
  {
    var total := BatchCount(|leads|);
    ghost var n0 := store.nextId;
    ghost var before := store.leads;
    ghost var k := FirstFailure(total, accept);
    stored := 0;
    while stored < total
      invariant 0 <= stored <= k <= total
      invariant store.Valid()
      invariant store.campaigns == old(store.campaigns)
      invariant store.leads == before + Created(leads, stored, n0, now)
      invariant store.nextId == n0 + |Flatten(Batches(leads, stored))|
    {
      ghost var prior := store.leads;
      var ok := store.BulkCreate(Batch(leads, stored), now, accept(stored));
      if !ok {
        return;
      }
      StoredStep(before, prior, store.leads, leads, stored, n0, now);
      stored := stored + 1;
    }
  }

  /** After batch `i` is stored on top of the first `i`, the store holds the records
      of the first `i + 1` batches. */
  lemma StoredStep(before: seq<Lead>, prior: seq<Lead>, after: seq<Lead>, s: seq<Candidate>,
                   i: nat, first: nat, now: string)
    requires i < BatchCount(|s|)
    requires prior == before + Created(s, i, first, now)
    requires after == prior + CreateAll(Batch(s, i), first + |Flatten(Batches(s, i))|, now)
    ensures after == before + Created(s, i + 1, first, now)
    ensures |Flatten(Batches(s, i + 1))| == |Flatten(Batches(s, i))| + |Batch(s, i)|
  {
    CreatedStep(s, i, first, now);
  }

  /** Storing one more batch extends the created records by that batch's records,
      numbered on from the ones before. */
  lemma CreatedStep(s: seq<Candidate>, i: nat, first: nat, now: string)
    requires i < BatchCount(|s|)
    ensures Created(s, i + 1, first, now)
      == Created(s, i, first, now) + CreateAll(Batch(s, i), first + |Flatten(Batches(s, i))|, now)
    ensures |Flatten(Batches(s, i + 1))| == |Flatten(Batches(s, i))| + |Batch(s, i)|
  {
    var batch := Batch(s, i);
    FlattenConcat(Batches(s, i), [batch]);
    assert Flatten([batch]) == batch;
    assert Batches(s, i + 1) == Batches(s, i) + [batch];
    CreateAllConcat(Flatten(Batches(s, i)), batch, first, now);
  }

  /** Creating two batches one after the other creates their concatenation. */
  lemma CreateAllConcat(a: seq<Candidate>, b: seq<Candidate>, first: nat, now: string)
    ensures CreateAll(a, first, now) + CreateAll(b, first + |a|, now) == CreateAll(a + b, first, now)
  {
  }
}
