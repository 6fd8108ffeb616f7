/** The review ingestion script
    (scripts/generate_embeddings/generate_embeddings/main.py), without its
    I/O: fill the missing cells, combine the four review sections into one
    text, embed each text, and upsert one record per row, in frame order.

    A frame row is a map from the columns the script reads to their cells;
    the embedding service is the parameter `embed`. */
module ReviewIngest {
  import opened ChatTypes

  /** A CSV cell as pandas reads it: missing (NaN) or text. */
  datatype Cell = Missing | Text(text: string)

  /** The CSV columns the script reads. */
  datatype Column =
    | ReviewerName | ReviewerJobTitle | ReviewerBusinessSize | Rating | ReviewDate | ReviewTitle
    | ReviewLikes | ReviewDislikes | ReviewProblem | ReviewRecommendations | ReviewLink

  /** The header of a column in the CSV file. */
  function Header(c: Column): (name: string) {
    match c
    case ReviewerName => "Reviewer Name"
    case ReviewerJobTitle => "Reviewer Job Title"
    case ReviewerBusinessSize => "Reviewer Business Size"
    case Rating => "Rating"
    case ReviewDate => "Review Date"
    case ReviewTitle => "Review Title"
    case ReviewLikes => "Review Likes"
    case ReviewDislikes => "Review Dislikes"
    case ReviewProblem => "Review Problem"
    case ReviewRecommendations => "Review Recommendations"
    case ReviewLink => "Review Link"
  }

  /** Reading a CSV header back: the inverse of Header. */
  function ColumnOfHeader(header: string): (c: Option<Column>) {
    if header == "Reviewer Name" then Some(ReviewerName)
    else if header == "Reviewer Job Title" then Some(ReviewerJobTitle)
    else if header == "Reviewer Business Size" then Some(ReviewerBusinessSize)
    else if header == "Rating" then Some(Rating)
    else if header == "Review Date" then Some(ReviewDate)
    else if header == "Review Title" then Some(ReviewTitle)
    else if header == "Review Likes" then Some(ReviewLikes)
    else if header == "Review Dislikes" then Some(ReviewDislikes)
    else if header == "Review Problem" then Some(ReviewProblem)
    else if header == "Review Recommendations" then Some(ReviewRecommendations)
    else if header == "Review Link" then Some(ReviewLink)
    else None
  }

  /** The eleven CSV headers read are distinct: each names exactly one column. */
  lemma HeaderOneToOne(c: Column, d: Column)
    ensures ColumnOfHeader(Header(c)) == Some(c)
    ensures Header(c) == Header(d) ==> c == d
  {
    assert ColumnOfHeader(Header(d)) == Some(d);
  }

  type CsvRow = map<Column, Cell>
  type FilledRow = map<Column, string>

  /** A key of the dictionary sent to the `reviews` table: one per CSV
      column, plus the embedding. */
  datatype Field = From(column: Column) | EmbeddingField

  /** The `reviews` column name of a field. */
  function FieldName(f: Field): (name: string) {
    match f
    case From(ReviewerName) => "reviewer_name"
    case From(ReviewerJobTitle) => "reviewer_job_title"
    case From(ReviewerBusinessSize) => "reviewer_business_size"
    case From(Rating) => "rating"
    case From(ReviewDate) => "review_date"
    case From(ReviewTitle) => "review_title"
    case From(ReviewLikes) => "review_likes"
    case From(ReviewDislikes) => "review_dislikes"
    case From(ReviewProblem) => "review_problem"
    case From(ReviewRecommendations) => "review_recommendations"
    case From(ReviewLink) => "review_link"
    case EmbeddingField => "embedding"
  }

  /** A value of the dictionary sent to the `reviews` table. */
  datatype DbValue = Str(s: string) | Vector(v: Embedding)

  type DbRecord = map<Field, DbValue>

  /** Reading a column name back: the inverse of FieldName. */
  function FieldOfName(name: string): (f: Option<Field>)
  {
    if name == "reviewer_name" then Some(From(ReviewerName))
    else if name == "reviewer_job_title" then Some(From(ReviewerJobTitle))
    else if name == "reviewer_business_size" then Some(From(ReviewerBusinessSize))
    else if name == "rating" then Some(From(Rating))
    else if name == "review_date" then Some(From(ReviewDate))
    else if name == "review_title" then Some(From(ReviewTitle))
    else if name == "review_likes" then Some(From(ReviewLikes))
    else if name == "review_dislikes" then Some(From(ReviewDislikes))
    else if name == "review_problem" then Some(From(ReviewProblem))
    else if name == "review_recommendations" then Some(From(ReviewRecommendations))
    else if name == "review_link" then Some(From(ReviewLink))
    else if name == "embedding" then Some(EmbeddingField)
    else None
  }

  /** The twelve DB column names are distinct: each names exactly one field. */
  lemma FieldNameOneToOne(f: Field, g: Field)
    ensures FieldOfName(FieldName(f)) == Some(f)
    ensures FieldName(f) == FieldName(g) ==> f == g
  {
    assert FieldOfName(FieldName(g)) == Some(g);
  }

  /** `df.fillna("")` on one row. */
  function FillNa(row: CsvRow): (r: FilledRow)
    ensures r.Keys == row.Keys
    ensures forall c :: c in row && row[c].Missing? ==> r[c] == ""
    ensures forall c :: c in row && row[c].Text? ==> r[c] == row[c].text
    ensures HasColumns(row) ==> HasColumns(r)
  {
    map c | c in row :: if row[c].Missing? then "" else row[c].text
  }

  /** The f-string of lines 37-40; the title is not part of it. */
  function CombinedReview(likes: string, dislikes: string, problem: string, recommendations: string): (r: string)
    ensures |r| == 52 + |likes| + |dislikes| + |problem| + |recommendations|
    ensures r[..7] == "Likes: " && r[7..7 + |likes|] == likes
    ensures r[7 + |likes|..20 + |likes|] == " . Dislikes: "
    ensures r[20 + |likes|..20 + |likes| + |dislikes|] == dislikes
    ensures r[20 + |likes| + |dislikes|..32 + |likes| + |dislikes|] == " . Problem: "
    ensures r[32 + |likes| + |dislikes|..32 + |likes| + |dislikes| + |problem|] == problem
    ensures r[|r| - |recommendations| - 20..|r| - |recommendations|] == " . Recommendations: "
    ensures r[|r| - |recommendations|..] == recommendations
  {
    "Likes: " + likes + " . Dislikes: " + dislikes + " . Problem: " + problem
    + " . Recommendations: " + recommendations
  }

  /** The frame has every column the script reads (pandas raises a KeyError
      otherwise and the script stops). */
  predicate HasColumns<V>(row: map<Column, V>) {
    forall c: Column :: c in row
  }

  /** The combined review of one filled row: its likes, dislikes, problem
      and recommendations, each after its label. */
  function RowCombinedReview(row: FilledRow): (review: string)
    requires HasColumns(row)
  {
    CombinedReview(row[ReviewLikes], row[ReviewDislikes], row[ReviewProblem], row[ReviewRecommendations])
  }

  /** The combined review of a row holds its likes, dislikes, problem and
      recommendations cells, in that order, at the template's offsets. */
  lemma RowCombinedReviewSections(row: FilledRow)
    requires HasColumns(row)
    ensures var review := RowCombinedReview(row);
      && |review| == 52 + |row[ReviewLikes]| + |row[ReviewDislikes]| + |row[ReviewProblem]| + |row[ReviewRecommendations]|
      && review[7..7 + |row[ReviewLikes]|] == row[ReviewLikes]
      && review[20 + |row[ReviewLikes]|..20 + |row[ReviewLikes]| + |row[ReviewDislikes]|] == row[ReviewDislikes]
      && review[32 + |row[ReviewLikes]| + |row[ReviewDislikes]|..32 + |row[ReviewLikes]| + |row[ReviewDislikes]| + |row[ReviewProblem]|]
         == row[ReviewProblem]
      && review[|review| - |row[ReviewRecommendations]|..] == row[ReviewRecommendations]
  {
  }

  /** The combined text depends on the four review sections only. */
  lemma CombinedReviewIgnoresOtherColumns(a: FilledRow, b: FilledRow)
    requires HasColumns(a) && HasColumns(b)
    requires forall c :: c in {ReviewLikes, ReviewDislikes, ReviewProblem, ReviewRecommendations} ==> a[c] == b[c]
    ensures RowCombinedReview(a) == RowCombinedReview(b)
  {
  }

  /** `data_row` of lines 58-71; `embedding` is the row's `embedding`
      column. */
  function DataRow(row: FilledRow, embedding: Embedding): (rec: DbRecord)
    requires HasColumns(row)
    ensures EmbeddingField in rec && rec[EmbeddingField] == Vector(embedding)
  {
    map[
      From(ReviewerName) := Str(row[ReviewerName]),
      From(ReviewerJobTitle) := Str(row[ReviewerJobTitle]),
      From(ReviewerBusinessSize) := Str(row[ReviewerBusinessSize]),
      From(Rating) := Str(row[Rating]),
      From(ReviewDate) := Str(row[ReviewDate]),
      From(ReviewTitle) := Str(row[ReviewTitle]),
      From(ReviewLikes) := Str(row[ReviewLikes]),
      From(ReviewDislikes) := Str(row[ReviewDislikes]),
      From(ReviewProblem) := Str(row[ReviewProblem]),
      From(ReviewRecommendations) := Str(row[ReviewRecommendations]),
      From(ReviewLink) := Str(row[ReviewLink]),
      EmbeddingField := Vector(embedding)
    ]
  }

  /** Each CSV column's cell lands under that column's field, unchanged. */
  lemma DataRowRenames(row: FilledRow, embedding: Embedding)
    requires HasColumns(row)
    ensures forall c: Column :: From(c) in DataRow(row, embedding) && DataRow(row, embedding)[From(c)] == Str(row[c])
  {
    forall c: Column
      ensures From(c) in DataRow(row, embedding) && DataRow(row, embedding)[From(c)] == Str(row[c])
    {
      match c {
        case ReviewerName => case ReviewerJobTitle => case ReviewerBusinessSize => case Rating =>
        case ReviewDate => case ReviewTitle => case ReviewLikes => case ReviewDislikes =>
        case ReviewProblem => case ReviewRecommendations => case ReviewLink =>
      }
    }
  }

  /** The whole script on a frame: returns the `combined_review` column,
      the `embedding` column, and the records upserted, in order. */
  method Ingest(frame: seq<CsvRow>, embed: string -> Embedding)
    returns (combined: seq<string>, embeddings: seq<Embedding>, upserts: seq<DbRecord>)
    requires forall i :: 0 <= i < |frame| ==> HasColumns(frame[i])
    ensures |combined| == |frame| && |embeddings| == |frame| && |upserts| == |frame|
    ensures forall i :: 0 <= i < |frame| ==> combined[i] == RowCombinedReview(FillNa(frame[i]))
    ensures forall i :: 0 <= i < |frame| ==> embeddings[i] == embed(combined[i])
    ensures forall i :: 0 <= i < |frame| ==> upserts[i] == DataRow(FillNa(frame[i]), embeddings[i])
  {
    // fill the missing cells
    var df := seq(|frame|, i requires 0 <= i < |frame| => FillNa(frame[i]));
    // one combined review text per row
    combined := seq(|df|, i requires 0 <= i < |df| => RowCombinedReview(df[i]));
    // one embedding per combined text, in frame order
    embeddings := [];
    for i := 0 to |combined|
      invariant |embeddings| == i
      invariant forall j :: 0 <= j < i ==> embeddings[j] == embed(combined[j])
    {
      embeddings := embeddings + [embed(combined[i])];
    }
    // one record per row, each upserted in frame order
    upserts := [];
    for i := 0 to |df|
      invariant |upserts| == i
      invariant forall j :: 0 <= j < i ==> upserts[j] == DataRow(df[j], embeddings[j])
    {
      upserts := upserts + [DataRow(df[i], embeddings[i])];
    }
  }

  /** Every upserted record carries, under the DB column of each CSV column,
      the text of that cell of the same row (a missing cell as ""), and the
      embedding of that row's combined text. */
  lemma {:induction false} UpsertedRecordsRenameCells(frame: seq<CsvRow>, embed: string -> Embedding,
                                                      combined: seq<string>, embeddings: seq<Embedding>,
                                                      upserts: seq<DbRecord>)
    requires forall i :: 0 <= i < |frame| ==> HasColumns(frame[i])
    requires |combined| == |frame| && |embeddings| == |frame| && |upserts| == |frame|
    requires forall i :: 0 <= i < |frame| ==> embeddings[i] == embed(combined[i])
    requires forall i :: 0 <= i < |frame| ==> upserts[i] == DataRow(FillNa(frame[i]), embeddings[i])
    ensures forall i, c :: 0 <= i < |frame| && c in frame[i] ==>
      From(c) in upserts[i] && upserts[i][From(c)] == Str(if frame[i][c].Missing? then "" else frame[i][c].text)
    ensures forall i :: 0 <= i < |frame| ==>
      EmbeddingField in upserts[i] && upserts[i][EmbeddingField] == Vector(embed(combined[i]))
  {
    forall i, c | 0 <= i < |frame| && c in frame[i]
      ensures From(c) in upserts[i] && upserts[i][From(c)] == Str(if frame[i][c].Missing? then "" else frame[i][c].text)
    {
      DataRowRenames(FillNa(frame[i]), embeddings[i]);
    }
  }
}
