/** The admin's "Add Movie" dialog (src/components/admin/MovieForm.tsx): the
    form schema, the poster's storage path, and the row inserted into
    `movies`. The storage upload, the public URL and the insert are
    parameters. */
module MovieForm {
  import opened Types
  import Text

  /** The form's fields; `duration` is the number `z.coerce.number()` gives. */
  datatype MovieFormData = MovieFormData(title: string, description: string, director: string,
                                         duration: real, language: string, releaseDate: string,
                                         genre: string, cast: string)

  /** The row inserted into `movies`. */
  datatype MovieInsert = MovieInsert(title: string, description: string, director: string, duration: real,
                                     language: string, releaseDate: string, genre: seq<string>,
                                     castMembers: seq<string>, poster: string, rating: real)

  /** How `onSubmit` ends. */
  datatype SubmitResult = NoPoster | UploadFailed(path: string) | InsertFailed(path: string)
                        | Created(path: string, row: MovieInsert)

  /** The fields of the dialog. */
  datatype MovieField = Title | Description | Director | Duration | Language | ReleaseDate | Genre | Cast

  /** What one rule of a schema reports: nothing when it holds,
      otherwise its field. */
  function Rule<F>(holds: bool, field: F): (failed: seq<F>)
    ensures |failed| == 0 <==> holds
    ensures |failed| <= 1
    ensures forall f :: f in failed ==> f == field
  {
    if holds then [] else [field]
  }

  /** The fields `movieSchema` rejects, in the order of the fields. */
  function MovieErrors(d: MovieFormData): seq<MovieField>
  {
    Rule(|d.title| >= 1, Title)
    + Rule(|d.description| >= 10, Description)
    + Rule(|d.director| >= 1, Director)
    + Rule(d.duration >= 1.0, Duration)
    + Rule(|d.language| >= 1, Language)
    + Rule(|d.releaseDate| >= 1, ReleaseDate)
    + Rule(|d.genre| >= 1, Genre)
    + Rule(|d.cast| >= 1, Cast)
  }

  /** The message the dialog shows under a rejected field. */
  function MovieMessage(f: MovieField): string
  {
    match f
    case Title => "Title is required"
    case Description => "Description must be at least 10 characters"
    case Director => "Director is required"
    case Duration => "Duration is required"
    case Language => "Language is required"
    case ReleaseDate => "Release date is required"
    case Genre => "Genre is required"
    case Cast => "Cast is required"
  }

  /** `movieSchema`: every text field required, a description of at least
      10 characters and a duration of at least 1; accepted exactly when the
      dialog has no message to show. */
  predicate ValidMovieForm(d: MovieFormData)
    ensures ValidMovieForm(d) <==> |MovieErrors(d)| == 0
  {
    && |d.title| >= 1
    && |d.description| >= 10
    && |d.director| >= 1
    && d.duration >= 1.0
    && |d.language| >= 1
    && |d.releaseDate| >= 1
    && |d.genre| >= 1
    && |d.cast| >= 1
  }

  // -------------------------------------------------------------- lists

  /** `s.split(',').map(x => x.trim())` */
  function SplitTrim(s: string): (items: seq<string>)
    ensures |items| == |Text.Split(s, ',')|
    ensures forall i :: 0 <= i < |items| ==> items[i] == Text.Trim(Text.Split(s, ',')[i])
  {
    var parts := Text.Split(s, ',');
    seq(|parts|, i requires 0 <= i < |parts| => Text.Trim(parts[i]))
  }

  lemma TrimKeepsOut(s: string, c: char)
    requires c !in s
    ensures c !in Text.Trim(s)
  {
  }

  /** The list has one item more than the input has commas; items carry no
      surrounding whitespace and no comma; empty pieces are kept, so ",,"
      gives three empty items. */
  lemma SplitTrimShape(s: string)
    ensures |SplitTrim(s)| == Text.Count(s, ',') + 1
    ensures forall i :: 0 <= i < |SplitTrim(s)| ==>
              var item := SplitTrim(s)[i];
              ',' !in item && (item == [] || (!Text.IsSpace(item[0]) && !Text.IsSpace(item[|item| - 1])))
    ensures SplitTrim(",,") == ["", "", ""]
  {
    SplitTrimOfCommas();
    Text.SplitCount(s, ',');
    var parts := Text.Split(s, ',');
    forall i | 0 <= i < |parts| ensures ',' !in SplitTrim(s)[i] {
      TrimKeepsOut(parts[i], ',');
    }
  }

  lemma SplitTrimOfCommas()
    ensures SplitTrim(",,") == ["", "", ""]
  {
    assert Text.Split(",", ',') == ["", ""];
    assert Text.Split(",,", ',') == ["", "", ""];
  }

  // ------------------------------------------------------------- poster

  /** `fileName.split('.').pop()`: the text after the last dot, or the whole
      name when it has none. */
  function Extension(fileName: string): (ext: string)
    ensures '.' !in ext
    ensures '.' !in fileName ==> ext == fileName
    ensures '.' in fileName ==> |ext| < |fileName| && fileName == fileName[..|fileName| - |ext|] + ext
                                && fileName[|fileName| - |ext| - 1] == '.'
  {
    Text.AfterLastIsSuffix(fileName, '.');
    Text.AfterLast(fileName, '.')
  }

  /** `${folder}/${Date.now()}.${fileExt}` */
  function PosterPath(folder: string, now: nat, fileName: string): string
  {
    folder + "/" + Text.NatToString(now) + "." + Extension(fileName)
  }

  /** The stored poster keeps the uploaded file's extension: reading the
      extension of the storage path gives back that of the file. */
  lemma {:induction false} ExtensionOfPosterPath(folder: string, now: nat, fileName: string)
    ensures Extension(PosterPath(folder, now, fileName)) == Extension(fileName)
  {
    var b := Extension(fileName);
    var p := folder + "/" + Text.NatToString(now);
    var s := PosterPath(folder, now, fileName);
    assert s == p + "." + b;
    assert s[|p|] == '.';
    assert |Extension(s)| == |b|;
    assert s[|s| - |b|..] == b;
  }

  /** The row built from a valid form and the poster's public URL. */
  function MovieRowFor(d: MovieFormData, publicUrl: string): (row: MovieInsert)
    ensures row.rating == 0.0 && row.poster == publicUrl
    ensures row.genre == SplitTrim(d.genre) && row.castMembers == SplitTrim(d.cast)
    ensures row.title == d.title && row.description == d.description && row.director == d.director
    ensures row.duration == d.duration && row.language == d.language && row.releaseDate == d.releaseDate
  {
    MovieInsert(d.title, d.description, d.director, d.duration, d.language, d.releaseDate,
                SplitTrim(d.genre), SplitTrim(d.cast), publicUrl, 0.0)
  }

  /** `onSubmit`, reached only with data the schema accepted. `poster` is
      the chosen file's name; `uploadOk`, `publicUrl` and `insertOk` are the
      storage and database answers. */
  function Submit(d: MovieFormData, poster: Option<string>, now: nat, uploadOk: bool, publicUrl: string,
                  insertOk: bool): (res: SubmitResult)
    requires ValidMovieForm(d)
    ensures res == NoPoster <==> poster.None?
    ensures poster.Some? && !uploadOk ==> res == UploadFailed(PosterPath("movies", now, poster.value))
    ensures poster.Some? && uploadOk && !insertOk ==> res == InsertFailed(PosterPath("movies", now, poster.value))
    ensures res.Created? <==> poster.Some? && uploadOk && insertOk
    ensures res.Created? ==> res.path == PosterPath("movies", now, poster.value) && res.row == MovieRowFor(d, publicUrl)
  {
    if poster.None? then NoPoster
    else
      var path := PosterPath("movies", now, poster.value);
      if !uploadOk then UploadFailed(path)
      else if !insertOk then InsertFailed(path)
      else Created(path, MovieRowFor(d, publicUrl))
  }

  /** Every movie the dialog creates has a genre and a cast list (each at
      least one item long), rating 0, and a poster stored under "movies/"
      with the file's extension. */
  lemma CreatedMovieShape(d: MovieFormData, poster: Option<string>, now: nat, uploadOk: bool, publicUrl: string,
                          insertOk: bool)
    requires ValidMovieForm(d)
    requires Submit(d, poster, now, uploadOk, publicUrl, insertOk).Created?
    ensures var res := Submit(d, poster, now, uploadOk, publicUrl, insertOk);
            && |res.row.genre| >= 1 && |res.row.castMembers| >= 1 && res.row.rating == 0.0
            && res.path[..7] == "movies/" && '.' !in Extension(poster.value)
  {
    var res := Submit(d, poster, now, uploadOk, publicUrl, insertOk);
    assert res.path == "movies" + "/" + Text.NatToString(now) + "." + Extension(poster.value);
  }
}
