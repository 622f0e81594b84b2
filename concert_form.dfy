/** The admin's "Add Concert" dialog (src/components/admin/ConcertForm.tsx):
    the form schema, the concert row and the four section rows built from
    it. The storage upload, the public URL, the inserted concert's id and
    the inserts' outcomes are parameters. */
module ConcertForm {
  import opened Types
  import MovieForm

  /** The form's fields; prices and capacities are the numbers
      `z.coerce.number()` gives. */
  datatype ConcertFormData = ConcertFormData(title: string, artist: string, description: string, genre: string,
                                             date: string, time: string,
                                             vipPrice: real, vipCapacity: real,
                                             frontPrice: real, frontCapacity: real,
                                             middlePrice: real, middleCapacity: real,
                                             backPrice: real, backCapacity: real)

  datatype ConcertInsert = ConcertInsert(title: string, artist: string, description: string, genre: string,
                                         date: string, time: string, poster: string)

  /** A row inserted into `concert_sections`. */
  datatype SectionInsert = SectionInsert(concertId: string, name: string, price: real,
                                         totalCapacity: real, availableCapacity: real)

  /** How `onSubmit` ends: a failed section insert leaves the concert row
      already written. */
  datatype SubmitResult = NoPoster
                        | UploadFailed(path: string)
                        | InsertFailed(path: string)
                        | SectionsFailed(path: string, concert: ConcertInsert, concertId: string)
                        | Created(path: string, concert: ConcertInsert, concertId: string, sections: seq<SectionInsert>)

  datatype ConcertField = Title | Artist | Description | Genre | Date | Time
                        | VipPrice | VipCapacity | FrontPrice | FrontCapacity
                        | MiddlePrice | MiddleCapacity | BackPrice | BackCapacity

  /** The fields `concertSchema` rejects, in the order of the fields. */
  function ConcertErrors(d: ConcertFormData): seq<ConcertField>
  {
    MovieForm.Rule(|d.title| >= 1, Title)
    + MovieForm.Rule(|d.artist| >= 1, Artist)
    + MovieForm.Rule(|d.description| >= 10, Description)
    + MovieForm.Rule(|d.genre| >= 1, Genre)
    + MovieForm.Rule(|d.date| >= 1, Date)
    + MovieForm.Rule(|d.time| >= 1, Time)
    + MovieForm.Rule(d.vipPrice >= 1.0, VipPrice)
    + MovieForm.Rule(d.vipCapacity >= 1.0, VipCapacity)
    + MovieForm.Rule(d.frontPrice >= 1.0, FrontPrice)
    + MovieForm.Rule(d.frontCapacity >= 1.0, FrontCapacity)
    + MovieForm.Rule(d.middlePrice >= 1.0, MiddlePrice)
    + MovieForm.Rule(d.middleCapacity >= 1.0, MiddleCapacity)
    + MovieForm.Rule(d.backPrice >= 1.0, BackPrice)
    + MovieForm.Rule(d.backCapacity >= 1.0, BackCapacity)
  }

  /** The message the dialog shows under a rejected field. */
  function ConcertMessage(f: ConcertField): string
  {
    match f
    case Title => "Title is required"
    case Artist => "Artist is required"
    case Description => "Description must be at least 10 characters"
    case Genre => "Genre is required"
    case Date => "Date is required"
    case Time => "Time is required"
    case VipPrice => "VIP price is required"
    case VipCapacity => "VIP capacity is required"
    case FrontPrice => "Front price is required"
    case FrontCapacity => "Front capacity is required"
    case MiddlePrice => "Middle price is required"
    case MiddleCapacity => "Middle capacity is required"
    case BackPrice => "Back price is required"
    case BackCapacity => "Back capacity is required"
  }

  /** `concertSchema`: text fields required, a description of at least 10
      characters, and every price and capacity at least 1; the form is
      accepted exactly when no field shows a message. */
  predicate ValidConcertForm(d: ConcertFormData)
    ensures ValidConcertForm(d) <==> |ConcertErrors(d)| == 0
  {
    && |d.title| >= 1 && |d.artist| >= 1 && |d.description| >= 10 && |d.genre| >= 1
    && |d.date| >= 1 && |d.time| >= 1
    && d.vipPrice >= 1.0 && d.vipCapacity >= 1.0
    && d.frontPrice >= 1.0 && d.frontCapacity >= 1.0
    && d.middlePrice >= 1.0 && d.middleCapacity >= 1.0
    && d.backPrice >= 1.0 && d.backCapacity >= 1.0
  }

  /** The four sections of a new concert: vip, front, middle and back, in
      that order, each fully available. */
  function Sections(concertId: string, d: ConcertFormData): (ss: seq<SectionInsert>)
    ensures |ss| == 4
    ensures ss[0].name == "vip" && ss[1].name == "front" && ss[2].name == "middle" && ss[3].name == "back"
    ensures ss[0].price == d.vipPrice && ss[0].totalCapacity == d.vipCapacity
    ensures ss[1].price == d.frontPrice && ss[1].totalCapacity == d.frontCapacity
    ensures ss[2].price == d.middlePrice && ss[2].totalCapacity == d.middleCapacity
    ensures ss[3].price == d.backPrice && ss[3].totalCapacity == d.backCapacity
    ensures forall i :: 0 <= i < |ss| ==> ss[i].concertId == concertId && ss[i].availableCapacity == ss[i].totalCapacity
  {
    [ SectionInsert(concertId, "vip", d.vipPrice, d.vipCapacity, d.vipCapacity),
      SectionInsert(concertId, "front", d.frontPrice, d.frontCapacity, d.frontCapacity),
      SectionInsert(concertId, "middle", d.middlePrice, d.middleCapacity, d.middleCapacity),
      SectionInsert(concertId, "back", d.backPrice, d.backCapacity, d.backCapacity) ]
  }

  /** From a valid form every section has a price and capacity of at least
      1, and the four names are distinct. */
  lemma SectionsOfValidForm(concertId: string, d: ConcertFormData)
    requires ValidConcertForm(d)
    ensures forall s :: s in Sections(concertId, d) ==> s.price >= 1.0 && s.totalCapacity >= 1.0
    ensures forall i, j :: 0 <= i < j < 4 ==> Sections(concertId, d)[i].name != Sections(concertId, d)[j].name
  {
  }

  function ConcertRowFor(d: ConcertFormData, publicUrl: string): (row: ConcertInsert)
    ensures row.title == d.title && row.artist == d.artist && row.description == d.description
    ensures row.genre == d.genre && row.date == d.date && row.time == d.time && row.poster == publicUrl
  {
    ConcertInsert(d.title, d.artist, d.description, d.genre, d.date, d.time, publicUrl)
  }

  /** `onSubmit`, reached only with data the schema accepted. */
  function Submit(d: ConcertFormData, poster: Option<string>, now: nat, uploadOk: bool, publicUrl: string,
                  insertedId: Option<string>, sectionsOk: bool): (res: SubmitResult)
    requires ValidConcertForm(d)
    ensures res == NoPoster <==> poster.None?
    ensures poster.Some? && !uploadOk ==> res == UploadFailed(MovieForm.PosterPath("concerts", now, poster.value))
    ensures poster.Some? && uploadOk && insertedId.None? ==>
              res == InsertFailed(MovieForm.PosterPath("concerts", now, poster.value))
    ensures res.SectionsFailed? <==> poster.Some? && uploadOk && insertedId.Some? && !sectionsOk
    ensures res.Created? <==> poster.Some? && uploadOk && insertedId.Some? && sectionsOk
    ensures res.Created? ==>
              && res.path == MovieForm.PosterPath("concerts", now, poster.value)
              && res.concert == ConcertRowFor(d, publicUrl)
              && res.concertId == insertedId.value
              && res.sections == Sections(insertedId.value, d)
  {
    if poster.None? then NoPoster
    else
      var path := MovieForm.PosterPath("concerts", now, poster.value);
      if !uploadOk then UploadFailed(path)
      else if insertedId.None? then InsertFailed(path)
      else if !sectionsOk then SectionsFailed(path, ConcertRowFor(d, publicUrl), insertedId.value)
      else Created(path, ConcertRowFor(d, publicUrl), insertedId.value, Sections(insertedId.value, d))
  }

  /** A created concert's sections all point at the concert just inserted,
      and each starts with as many free places as it has in total. */
  lemma CreatedSectionsBelongToConcert(d: ConcertFormData, poster: Option<string>, now: nat, uploadOk: bool,
                                       publicUrl: string, insertedId: Option<string>, sectionsOk: bool)
    requires ValidConcertForm(d)
    requires Submit(d, poster, now, uploadOk, publicUrl, insertedId, sectionsOk).Created?
    ensures var res := Submit(d, poster, now, uploadOk, publicUrl, insertedId, sectionsOk);
            forall s :: s in res.sections ==> s.concertId == res.concertId && s.availableCapacity == s.totalCapacity
  {
  }
}
