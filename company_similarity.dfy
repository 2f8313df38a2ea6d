/** The `/calculate_similarity` endpoint of the spreadsheet server: read the
    two uploaded spreadsheets back from storage, take their "Company Name"
    columns, join each into one text, embed both texts and score them against
    each other. */
module CompanySimilarity {
  import opened Base
  import opened Text
  import opened Storage
  import opened Embedding

  /** The blob download of the storage SDK: the bytes of a blob or the error
      the service raised. */
  type Download = BlobKey -> Result<Bytes>

  /** A parsed spreadsheet: each column's cells in row order, `None` for a
      missing cell. */
  datatype Sheet = Sheet(columns: map<string, seq<Option<string>>>)

  /** `pd.read_excel`: a sheet or the parser's error. */
  type Parser = Bytes -> Result<Sheet>

  /** `cosine_similarity`, left as a score oracle. */
  type Cosine = (Vector, Vector) -> real

  const CompanyColumn: string := "Company Name"
  const NoNamesError: string := "No company names found in one or both files"

  /** The JSON answer: both file names, both name lists and the score, or an
      error status with its message. */
  datatype SimilarityReply =
    | Similarity(file1: string, file2: string, companies1: seq<string>, companies2: seq<string>, score: real)
    | Error(status: nat, message: string)

  function FetchError(name: string, container: string, cause: string): string
  {
    "Error fetching file " + name + " from " + container + ": " + cause
  }

  /** `fetch_blob_content`: the blob's bytes, or an error whose message names
      both the blob and the container and ends with the service's own
      message. */
  function FetchBlobContent(download: Download, container: string, name: string): (r: Result<Bytes>)
    ensures download((container, name)).Ok? ==> r == download((container, name))
    ensures download((container, name)).Err? ==>
              r.Err? && Contains(r.message, name) && Contains(r.message, container) &&
              Contains(r.message, download((container, name)).message)
  {
    match download((container, name))
    case Ok(bytes) => Ok(bytes)
    case Err(cause) =>
      var msg := FetchError(name, container, cause);
      ContainsMiddle("Error fetching file ", name, " from " + container + ": " + cause);
      assert msg == "Error fetching file " + name + (" from " + container + ": " + cause);
      ContainsMiddle("Error fetching file " + name + " from ", container, ": " + cause);
      assert msg == ("Error fetching file " + name + " from ") + container + (": " + cause);
      ContainsMiddle("Error fetching file " + name + " from " + container + ": ", cause, "");
      assert msg == ("Error fetching file " + name + " from " + container + ": ") + cause + "";
      Err(msg)
  }

  /** `.dropna().tolist()`: the present cells, in row order. */
  function DropMissing(cells: seq<Option<string>>): (names: seq<string>)
    ensures |names| <= |cells|
    ensures forall x :: x in names <==> Some(x) in cells
  {
    if cells == [] then []
    else (if cells[0].Some? then [cells[0].value] else []) + DropMissing(cells[1..])
  }

  /** Dropping missing cells distributes over concatenation, so the present
      cells keep their row order. */
  lemma {:induction false} DropMissingAppend(a: seq<Option<string>>, b: seq<Option<string>>)
    ensures DropMissing(a + b) == DropMissing(a) + DropMissing(b)
  {
    if a == [] {
      assert a + b == b;
    } else {
      assert (a + b)[1..] == a[1..] + b;
      DropMissingAppend(a[1..], b);
    }
  }

  /** The list is empty exactly when every cell of the column is missing. */
  lemma {:induction false} DropMissingEmpty(cells: seq<Option<string>>)
    ensures DropMissing(cells) == [] <==> forall i :: 0 <= i < |cells| ==> cells[i].None?
  {
    if cells != [] {
      DropMissingEmpty(cells[1..]);
      assert forall i :: 1 <= i < |cells| ==> cells[i] == cells[1..][i - 1];
    }
  }

  /** The rows `Acme`, missing, `Beta` give `["Acme", "Beta"]`. */
  lemma DropMissingExample()
    ensures DropMissing([Some("Acme"), None, Some("Beta")]) == ["Acme", "Beta"]
  {
    DropMissingAppend([Some("Acme")], [None, Some("Beta")]);
    DropMissingAppend([None], [Some("Beta")]);
    assert [Some("Acme"), None, Some("Beta")] == [Some("Acme")] + [None, Some("Beta")];
    assert [None, Some("Beta")] == [None] + [Some("Beta")];
  }

  function ParseError(cause: string): string
  {
    "Error reading Excel file: " + cause
  }

  /** `extract_company_names_from_excel`: the present cells of the column, or a
      wrapped error when the bytes do not parse or the column is absent
      (`str(KeyError)` quotes the column name). */
  function ExtractCompanyNames(parse: Parser, content: Bytes, column: string): (r: Result<seq<string>>)
    ensures r.Ok? <==> parse(content).Ok? && column in parse(content).value.columns
    ensures r.Ok? ==> r.value == DropMissing(parse(content).value.columns[column])
    ensures parse(content).Err? ==> r == Err(ParseError(parse(content).message))
    ensures parse(content).Ok? && column !in parse(content).value.columns ==>
              r == Err(ParseError("'" + column + "'"))
  {
    match parse(content)
    case Err(cause) => Err(ParseError(cause))
    case Ok(sheet) =>
      if column in sheet.columns then Ok(DropMissing(sheet.columns[column]))
      else Err(ParseError("'" + column + "'"))
  }

  /** `calculate_similarity()`. The two fixed names are read from their
      fixed containers, both fetched before either is parsed; the first
      failure gives 500 with its message and no embedding request; an empty
      list on either side gives 400, also before any embedding request;
      otherwise both joined texts are embedded in order (`requests`) and the
      answer echoes both names and both lists. */
  method CalculateSimilarity(cfg: Config, download: Download, parse: Parser, service: Service, cosine: Cosine)
    returns (reply: SimilarityReply, requests: seq<string>)
    ensures var content1 := FetchBlobContent(download, cfg.containerOne, MilwaukeeFile);
            var content2 := FetchBlobContent(download, cfg.containerTwo, AffiliatedFile);
            && (content1.Err? ==> reply == Error(500, content1.message) && requests == [])
            && (content1.Ok? && content2.Err? ==> reply == Error(500, content2.message) && requests == [])
            && (content1.Ok? && content2.Ok? ==>
                 var names1 := ExtractCompanyNames(parse, content1.value, CompanyColumn);
                 var names2 := ExtractCompanyNames(parse, content2.value, CompanyColumn);
                 && (names1.Err? ==> reply == Error(500, names1.message) && requests == [])
                 && (names1.Ok? && names2.Err? ==> reply == Error(500, names2.message) && requests == [])
                 && (names1.Ok? && names2.Ok? ==>
                      var text1 := Join(names1.value, ", ");
                      var text2 := Join(names2.value, ", ");
                      var e1 := Embed(service, text1).reply;
                      var e2 := Embed(service, text2).reply;
                      && (names1.value == [] || names2.value == [] ==>
                           reply == Error(400, NoNamesError) && requests == [])
                      && (names1.value != [] && names2.value != [] ==>
                           && (!e1.Embedded? ==> reply == Error(500, e1.message) && requests == [text1])
                           && (e1.Embedded? && !e2.Embedded? ==>
                                reply == Error(500, e2.message) && requests == [text1, text2])
                           && (e1.Embedded? && e2.Embedded? ==>
                                requests == [text1, text2] &&
                                reply == Similarity(MilwaukeeFile, AffiliatedFile, names1.value, names2.value,
                                                    cosine(e1.vector, e2.vector))))))
  {
    requests := [];
    var file1 := MilwaukeeFile;
    var file2 := AffiliatedFile;
    var container1 := cfg.containerOne;
    var container2 := cfg.containerTwo;
    var content1 := FetchBlobContent(download, container1, file1);
    if content1.Err? { return Error(500, content1.message), requests; }
    var content2 := FetchBlobContent(download, container2, file2);
    if content2.Err? { return Error(500, content2.message), requests; }
    var companies1 := ExtractCompanyNames(parse, content1.value, CompanyColumn);
    if companies1.Err? { return Error(500, companies1.message), requests; }
    var companies2 := ExtractCompanyNames(parse, content2.value, CompanyColumn);
    if companies2.Err? { return Error(500, companies2.message), requests; }
    if companies1.value == [] || companies2.value == [] {
      return Error(400, NoNamesError), requests;
    }
    var text1 := Join(companies1.value, ", ");
    var text2 := Join(companies2.value, ", ");
    var embedding1, _, _ := GetEmbedding(service, text1);
    requests := requests + [text1];
    if !embedding1.Embedded? { return Error(500, embedding1.message), requests; }
    var embedding2, _, _ := GetEmbedding(service, text2);
    requests := requests + [text2];
    if !embedding2.Embedded? { return Error(500, embedding2.message), requests; }
    var score := cosine(embedding1.vector, embedding2.vector);
    reply := Similarity(file1, file2, companies1.value, companies2.value, score);
  }
}
