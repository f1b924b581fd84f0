/**
 * The gallery page (main/views.py, `gallery_view`) and its route
 * (main/urls.py): the first-visit stamp, the upload workflow with its PIN
 * check, empty-batch check and per-file size and type filter, the
 * messages it leaves, and the page it renders otherwise.
 */
module Views {
  import opened Optional
  import opened Text
  import opened Models

  /** `GALLERY_MAX_UPLOAD_MB` when the setting is absent. */
  const DefaultMaxUploadMb: int := 100
  /** `MultiUploadForm.caption` max_length. */
  const CaptionMaxLength: nat := 200
  /** `MultiUploadForm.pin` max_length. */
  const PinMaxLength: nat := 12

  /** One entry of `request.FILES.getlist("files")`: its name, size and declared content type. */
  datatype UploadedFile = UploadedFile(name: string, size: Option<nat>, contentType: Option<string>)

  /** The parts of a request the view reads: the HTTP method, the two POST fields, the files, the user. */
  datatype Request = Request(
    httpMethod: string,
    caption: Option<string>,
    pin: Option<string>,
    files: seq<UploadedFile>,
    user: Option<UserId>)

  /** The messages the view leaves for the next page. */
  datatype Message =
    | WrongUploadPin                                   // error: wrong upload PIN
    | NoFilesChosen                                    // error: no files selected
    | FileTooLarge(name: string, maxMb: int)           // warning: file over the size limit
    | FileTypeNotAllowed(name: string, mime: string)   // warning: content type not allowed
    | FilesUploaded(count: nat)                        // success: files uploaded
    | NothingUploaded                                  // error: not a single file was uploaded

  datatype FormState = Unbound | BoundWithErrors

  /** The template context of the gallery page. */
  datatype Context = Context(gallery: Uuid, mediaItems: seq<MediaRow>, maxMb: int, needPin: bool, form: FormState)

  datatype Response = NotFound | Redirect(location: string) | Render(template: string, context: Context)

  // ---------- Route: path("g/<uuid:uuid>/", gallery_view) ----------

  /** `reverse("gallery_view", uuid=...)`: the gallery page's path. */
  function GalleryPath(u: Uuid): string {
    "/g/" + UuidString(u) + "/"
  }

  /** The gallery a request path routes to, if it matches `g/<uuid:uuid>/`. */
  function GalleryRoute(path: string): Option<Uuid> {
    if |path| == 40 && path[..3] == "/g/" && path[39] == '/' then ParseUuid(path[3..39]) else None
  }

  /** Redirecting to a gallery's page lands on that gallery's view again. */
  lemma GalleryPathRoutesBack(u: Uuid)
    ensures GalleryRoute(GalleryPath(u)) == Some(u)
  {
    var p := GalleryPath(u);
    assert p[..3] == "/g/" && p[3..39] == UuidString(u);
    UuidRoundTrip(u);
  }

  /**
   * A path routes to a gallery exactly when it is that gallery's page path:
   * only the canonical lower-case text of the UUID, with both slashes, is
   * accepted.
   */
  lemma GalleryRouteExactly(path: string, u: Uuid)
    ensures GalleryRoute(path) == Some(u) <==> path == GalleryPath(u)
  {
    GalleryPathRoutesBack(u);
    if GalleryRoute(path) == Some(u) {
      var s := path[3..39];
      ParseUuidCanonical(s);
      assert path == "/g/" + s + "/";
    }
  }

  /** The template chosen by the gallery's key. */
  function TemplateName(templateKey: string): string {
    "galleries/" + templateKey + ".html"
  }

  // ---------- The upload form (MultiUploadForm) ----------

  /**
   * A Django `CharField` cleans its raw value by stripping it; a missing value
   * cleans to "".
   */
  function CleanField(raw: Option<string>): (r: string)
    ensures raw.None? ==> r == ""
  {
    assert Strip("") == "";
    Strip(raw.GetOr(""))
  }

  /** The validators of a `CharField`: at most `maxLength` characters, no NUL character. */
  predicate FieldValid(value: string, maxLength: nat) {
    |value| <= maxLength && '\0' !in value
  }

  /**
   * `form.is_valid()`: both fields are optional, so a form that leaves them
   * out validates; a present one is judged on its stripped value.
   */
  predicate FormValid(req: Request): (ok: bool)
    ensures req.caption.None? && req.pin.None? ==> ok
  {
    FieldValid(CleanField(req.caption), CaptionMaxLength) && FieldValid(CleanField(req.pin), PinMaxLength)
  }

  /** The path on which files are processed: a POST whose form validates. */
  predicate PostAccepted(req: Request) {
    req.httpMethod == "POST" && FormValid(req)
  }

  // ---------- Limits, PIN ----------

  /** `getattr(settings, "GALLERY_MAX_UPLOAD_MB", 100)` */
  function MaxMb(setting: Option<int>): (r: int)
    ensures setting.None? ==> r == DefaultMaxUploadMb
    ensures setting.Some? ==> r == setting.value
  {
    setting.GetOr(DefaultMaxUploadMb)
  }

  lemma ScaleByMebibyte(m: int)
    ensures (m * 1024 * 1024) / 1_048_576 == m && (m * 1024 * 1024) % 1_048_576 == 0
  {
  }

  /** `max_mb * 1024 * 1024`: a whole number of mebibytes, from which the megabyte count reads back. */
  function ByteLimit(maxMb: int): (r: int)
    ensures r / 1_048_576 == maxMb && r % 1_048_576 == 0
    ensures r > 0 <==> maxMb > 0
  {
    ScaleByMebibyte(maxMb);
    maxMb * 1024 * 1024
  }

  /** With no setting the limit is 100 MB of 1024 * 1024 bytes. */
  lemma DefaultByteLimit()
    ensures MaxMb(None) == 100 && ByteLimit(MaxMb(None)) == 104_857_600
  {
  }

  /** `need_pin`: the gallery's upload PIN holds something besides whitespace. */
  predicate NeedPin(uploadPin: string) {
    Strip(uploadPin) != ""
  }

  /**
   * The upload PIN check turns a batch away: a PIN is set (after stripping)
   * and the stripped submission differs.
   */
  predicate PinRejects(uploadPin: string, submitted: string) {
    var want := Strip(uploadPin);
    want != "" && want != Strip(submitted)
  }

  /**
   * The page asks for a PIN exactly when the check is live: with a PIN set,
   * a submission without one is turned away; with none set (empty or only
   * whitespace), nothing is ever turned away.
   */
  lemma NeedPinIffCheckActive(uploadPin: string)
    ensures NeedPin(uploadPin) <==> PinRejects(uploadPin, "")
    ensures !NeedPin(uploadPin) ==> forall s :: !PinRejects(uploadPin, s)
    ensures NeedPin(uploadPin) <==> !AllSpace(uploadPin)
  {
    assert Strip("") == "";
  }

  /**
   * With a PIN set, a submission passes exactly when its stripped text is
   * the stripped PIN, that is, exactly when it is the stripped PIN with
   * nothing but whitespace around it.
   */
  lemma PinRejectsExactly(uploadPin: string, submitted: string)
    ensures NeedPin(uploadPin) ==> (PinRejects(uploadPin, submitted) <==> Strip(submitted) != Strip(uploadPin))
    ensures NeedPin(uploadPin) ==>
              (!PinRejects(uploadPin, submitted) <==>
               exists a, b :: AllSpace(a) && AllSpace(b) && submitted == a + Strip(uploadPin) + b)
  {
    if exists a, b :: AllSpace(a) && AllSpace(b) && submitted == a + Strip(uploadPin) + b {
      var a, b :| AllSpace(a) && AllSpace(b) && submitted == a + Strip(uploadPin) + b;
      MatchingPinPasses(uploadPin, a, b);
    }
    if !PinRejects(uploadPin, submitted) && NeedPin(uploadPin) {
      var a, b := StripSplits(submitted);
    }
  }

  /** The right PIN, with any whitespace around it, always passes. */
  lemma MatchingPinPasses(uploadPin: string, a: string, b: string)
    requires AllSpace(a) && AllSpace(b)
    ensures !PinRejects(uploadPin, a + Strip(uploadPin) + b)
  {
    var m := Strip(uploadPin);
    StripCharacterization(a, m, b);
  }

  // ---------- The per-file filter ----------

  /** `f.size or 0` */
  function FileSize(f: UploadedFile): nat {
    f.size.GetOr(0)
  }

  /** `getattr(f, "content_type", "") or ""` */
  function ContentType(f: UploadedFile): string {
    f.contentType.GetOr("")
  }

  predicate AllowedType(mime: string) {
    StartsWith(mime, "image/") || StartsWith(mime, "video/")
  }

  datatype Verdict = Accepted | TooLarge | BadType

  /**
   * What the loop does with one file: the size is checked first, so a file
   * that is both too large and of a wrong type counts once, as too large.
   */
  function FileVerdict(f: UploadedFile, maxBytes: int): (v: Verdict)
    ensures v == Accepted <==> FileSize(f) <= maxBytes && AllowedType(ContentType(f))
    ensures v == TooLarge <==> FileSize(f) > maxBytes
    ensures v == BadType <==> FileSize(f) <= maxBytes && !AllowedType(ContentType(f))
  {
    if !(FileSize(f) <= maxBytes) then TooLarge
    else if !AllowedType(ContentType(f)) then BadType
    else Accepted
  }

  /** What one upload request fixes for every file of its batch. */
  datatype BatchContext = BatchContext(gallery: Uuid, caption: string, uploader: Option<UserId>, maxMb: int, now: int)

  /** An uploaded file as the new item's file field holds it before the save commits it. */
  function AsFieldFile(f: UploadedFile): StoredFile {
    StoredFile(f.name, true, f.size, false)
  }

  /** The row `MediaItem.objects.create(gallery=..., file=f, caption=..., uploaded_by=...)` writes. */
  function NewRow(c: BatchContext, f: UploadedFile, guess: string -> Option<string>): MediaRow {
    CreatedRow(c.gallery, AsFieldFile(f), c.caption, c.uploader, guess, c.now)
  }

  /** What the loop has produced: rows written, warnings left, and the two counters. */
  datatype Tally = Tally(rows: seq<MediaRow>, warnings: seq<Message>, created: nat, errors: nat)

  /** The loop over the files, one file after the other. */
  function Batch(files: seq<UploadedFile>, c: BatchContext, guess: string -> Option<string>): Tally {
    if files == [] then Tally([], [], 0, 0)
    else
      var t := Batch(files[..|files| - 1], c, guess);
      var f := files[|files| - 1];
      match FileVerdict(f, ByteLimit(c.maxMb))
      case TooLarge => t.(warnings := t.warnings + [FileTooLarge(f.name, c.maxMb)], errors := t.errors + 1)
      case BadType => t.(warnings := t.warnings + [FileTypeNotAllowed(f.name, ContentType(f))], errors := t.errors + 1)
      case Accepted => t.(rows := t.rows + [NewRow(c, f, guess)], created := t.created + 1)
  }

  /** The one-element list of a file the filter keeps, or nothing. */
  function Kept(f: UploadedFile, maxBytes: int): seq<UploadedFile> {
    if FileVerdict(f, maxBytes) == Accepted then [f] else []
  }

  /** The files that pass the filter, in their order. */
  function AcceptedFiles(files: seq<UploadedFile>, maxBytes: int): seq<UploadedFile> {
    if files == [] then [] else Kept(files[0], maxBytes) + AcceptedFiles(files[1..], maxBytes)
  }

  lemma {:induction false} AcceptedFilesSnoc(files: seq<UploadedFile>, f: UploadedFile, maxBytes: int)
    ensures AcceptedFiles(files + [f], maxBytes) == AcceptedFiles(files, maxBytes) + Kept(f, maxBytes)
  {
    if files == [] {
      assert files + [f] == [f];
      assert [f][1..] == [];
    } else {
      var all := files + [f];
      assert all[0] == files[0];
      assert all[1..] == files[1..] + [f];
      AcceptedFilesSnoc(files[1..], f, maxBytes);
      var k0, rest := Kept(files[0], maxBytes), AcceptedFiles(files[1..], maxBytes);
      assert AcceptedFiles(all, maxBytes) == k0 + (rest + Kept(f, maxBytes));
      assert k0 + (rest + Kept(f, maxBytes)) == (k0 + rest) + Kept(f, maxBytes);
    }
  }

  /** The filter keeps a file exactly when it is within the size limit and of an image or video type. */
  lemma {:induction false} AcceptedFilesExactly(files: seq<UploadedFile>, maxBytes: int)
    ensures forall f :: f in AcceptedFiles(files, maxBytes) <==> f in files && FileVerdict(f, maxBytes) == Accepted
  {
    if files != [] {
      AcceptedFilesExactly(files[1..], maxBytes);
      assert files == [files[0]] + files[1..];
    }
  }

  /**
   * Every file is counted once: `created + errors` is the number of files,
   * one row per created file, one warning per rejected file.
   */
  lemma {:induction false} BatchCounts(files: seq<UploadedFile>, c: BatchContext, guess: string -> Option<string>)
    ensures var t := Batch(files, c, guess);
            t.created + t.errors == |files| && |t.rows| == t.created && |t.warnings| == t.errors
  {
    if files != [] {
      BatchCounts(files[..|files| - 1], c, guess);
    }
  }

  /**
   * A rejected file never stops the later ones: the rows written are, in
   * input order, exactly one row per accepted file.
   */
  lemma {:induction false} BatchWritesAcceptedFiles(files: seq<UploadedFile>, c: BatchContext, guess: string -> Option<string>)
    ensures var t := Batch(files, c, guess);
            var accepted := AcceptedFiles(files, ByteLimit(c.maxMb));
            && |t.rows| == |accepted|
            && forall k :: 0 <= k < |accepted| ==> t.rows[k] == NewRow(c, accepted[k], guess)
  {
    if files != [] {
      var init := files[..|files| - 1];
      var f := files[|files| - 1];
      var maxBytes := ByteLimit(c.maxMb);
      var rows, prev := Batch(files, c, guess).rows, Batch(init, c, guess).rows;
      var accepted, before := AcceptedFiles(files, maxBytes), AcceptedFiles(init, maxBytes);
      BatchWritesAcceptedFiles(init, c, guess);
      assert init + [f] == files;
      AcceptedFilesSnoc(init, f, maxBytes);
      assert accepted == before + Kept(f, maxBytes);
      BatchRowsStep(files, c, guess);
      RowsFollowFiles(c, guess, prev, before, Kept(f, maxBytes));
    }
  }

  /** The loop's step on the rows: the last file adds its row when it is accepted, and nothing otherwise. */
  lemma BatchRowsStep(files: seq<UploadedFile>, c: BatchContext, guess: string -> Option<string>)
    requires files != []
    ensures var f := files[|files| - 1];
            Batch(files, c, guess).rows ==
            Batch(files[..|files| - 1], c, guess).rows + (if FileVerdict(f, ByteLimit(c.maxMb)) == Accepted then [NewRow(c, f, guess)] else [])
  {
  }

  /** Rows written one per file stay so when one more file adds its row, or nothing. */
  lemma RowsFollowFiles(c: BatchContext, guess: string -> Option<string>, prev: seq<MediaRow>,
                        before: seq<UploadedFile>, extra: seq<UploadedFile>)
    requires |prev| == |before| && |extra| <= 1
    requires forall k :: 0 <= k < |before| ==> prev[k] == NewRow(c, before[k], guess)
    ensures var rows := prev + (if extra == [] then [] else [NewRow(c, extra[0], guess)]);
            var files := before + extra;
            |rows| == |files| && forall k :: 0 <= k < |files| ==> rows[k] == NewRow(c, files[k], guess)
  {
  }

  /** The warning the loop leaves for one file: its size first, then its type. */
  function RejectWarning(f: UploadedFile, maxMb: int): seq<Message> {
    match FileVerdict(f, ByteLimit(maxMb))
    case TooLarge => [FileTooLarge(f.name, maxMb)]
    case BadType => [FileTypeNotAllowed(f.name, ContentType(f))]
    case Accepted => []
  }

  /** The warnings of a batch, file by file from the front. */
  function RejectWarnings(files: seq<UploadedFile>, maxMb: int): seq<Message> {
    if files == [] then [] else RejectWarning(files[0], maxMb) + RejectWarnings(files[1..], maxMb)
  }

  lemma {:induction false} RejectWarningsSnoc(files: seq<UploadedFile>, f: UploadedFile, maxMb: int)
    ensures RejectWarnings(files + [f], maxMb) == RejectWarnings(files, maxMb) + RejectWarning(f, maxMb)
  {
    if files == [] {
      assert files + [f] == [f];
      assert [f][1..] == [];
    } else {
      var all := files + [f];
      assert all[0] == files[0];
      assert all[1..] == files[1..] + [f];
      RejectWarningsSnoc(files[1..], f, maxMb);
      var w0, rest := RejectWarning(files[0], maxMb), RejectWarnings(files[1..], maxMb);
      assert RejectWarnings(all, maxMb) == w0 + (rest + RejectWarning(f, maxMb));
      assert w0 + (rest + RejectWarning(f, maxMb)) == (w0 + rest) + RejectWarning(f, maxMb);
    }
  }

  /**
   * The warnings the loop leaves are, in input order, one per rejected file:
   * "too large" with the limit in MB for an oversized file, "type not
   * allowed" with its declared content type for any other rejected one.
   */
  lemma {:induction false} BatchWarnings(files: seq<UploadedFile>, c: BatchContext, guess: string -> Option<string>)
    ensures Batch(files, c, guess).warnings == RejectWarnings(files, c.maxMb)
  {
    if files != [] {
      var init := files[..|files| - 1];
      var f := files[|files| - 1];
      BatchWarnings(init, c, guess);
      assert init + [f] == files;
      RejectWarningsSnoc(init, f, c.maxMb);
    }
  }

  /**
   * What a row created by an upload holds: the target gallery, the batch
   * caption, the uploader, `sort_order` 0 (uploads never set it), the request
   * time, the declared size, and a file stored under the gallery's folder
   * with its original name.
   */
  lemma NewRowContents(c: BatchContext, f: UploadedFile, guess: string -> Option<string>)
    requires f.name != ""
    ensures var r := NewRow(c, f, guess);
            && r.gallery == c.gallery && r.caption == c.caption && r.uploadedBy == c.uploader
            && r.sortOrder == 0 && !r.isFeatured && r.uploadedAt == c.now
            && r.fileSize == FileSize(f)
            && ParseUploadPath(r.file.name) == Some((c.gallery, f.name))
  {
    CreatedRowFields(c.gallery, AsFieldFile(f), c.caption, c.uploader, guess, c.now);
    CommitStoresUnderGallery(AsFieldFile(f), c.gallery);
  }

  /**
   * The kind of an uploaded row comes from the guess on the file NAME, not
   * from the content type the filter checked: two uploads that differ only
   * in declared type get the same kind.
   */
  lemma KindIgnoresContentType(c: BatchContext, f: UploadedFile, ct: Option<string>, guess: string -> Option<string>)
    requires f.name != ""
    ensures NewRow(c, f, guess).kind == NewRow(c, f.(contentType := ct), guess).kind
    ensures NewRow(c, f, guess).kind == Image <==> StartsWith(guess(f.name).GetOr(""), "image/")
    ensures NewRow(c, f, guess).kind == Video <==> StartsWith(guess(f.name).GetOr(""), "video/")
  {
  }

  /**
   * Hence a file the filter accepted as "image/jpeg" is stored with kind
   * AUTO when its name gives no guess.
   */
  lemma AcceptedUploadCanStayAuto(c: BatchContext, guess: string -> Option<string>)
    requires c.maxMb >= 1
    requires guess("photo") == None
    ensures var f := UploadedFile("photo", Some(1), Some("image/jpeg"));
            FileVerdict(f, ByteLimit(c.maxMb)) == Accepted && NewRow(c, f, guess).kind == Auto
  {
    var f := UploadedFile("photo", Some(1), Some("image/jpeg"));
    assert StartsWith(ContentType(f), "image/");
  }

  // ---------- The whole POST ----------

  datatype Outcome = Outcome(rows: seq<MediaRow>, msgs: seq<Message>)

  /** The closing message: success with the count when something was created, else the batch error. */
  function Summary(t: Tally): seq<Message> {
    (if t.created > 0 then [FilesUploaded(t.created)] else [])
    + (if t.errors > 0 && t.created == 0 then [NothingUploaded] else [])
  }

  /** A POST with a valid form: PIN check, then the empty-list check, then the loop and its summary. */
  function HandleUpload(uploadPin: string, pin: string, files: seq<UploadedFile>, c: BatchContext,
                        guess: string -> Option<string>): Outcome
  {
    if PinRejects(uploadPin, pin) then Outcome([], [WrongUploadPin])
    else if files == [] then Outcome([], [NoFilesChosen])
    else
      var t := Batch(files, c, guess);
      Outcome(t.rows, t.warnings + Summary(t))
  }

  /**
   * Every valid POST leaves at least one message, and rows are written only
   * past both checks, at most one per file.
   */
  lemma HandleUploadBounds(uploadPin: string, pin: string, files: seq<UploadedFile>, c: BatchContext,
                           guess: string -> Option<string>)
    ensures var o := HandleUpload(uploadPin, pin, files, c, guess);
            && |o.msgs| >= 1
            && |o.rows| <= |files|
            && (o.rows != [] ==> !PinRejects(uploadPin, pin) && files != [])
  {
    BatchCounts(files, c, guess);
  }

  /** A wrong PIN writes nothing and reports only itself, whatever the files; the PIN is checked first. */
  lemma WrongPinWritesNothing(uploadPin: string, pin: string, files: seq<UploadedFile>, c: BatchContext,
                              guess: string -> Option<string>)
    ensures PinRejects(uploadPin, pin) ==> HandleUpload(uploadPin, pin, files, c, guess) == Outcome([], [WrongUploadPin])
  {
  }

  /** An empty batch that passes the PIN check writes nothing and reports the empty selection. */
  lemma EmptyBatchWritesNothing(uploadPin: string, pin: string, c: BatchContext, guess: string -> Option<string>)
    ensures !PinRejects(uploadPin, pin) ==> HandleUpload(uploadPin, pin, [], c, guess) == Outcome([], [NoFilesChosen])
  {
  }

  /**
   * A batch that reaches the loop writes one row per accepted file and
   * leaves one warning per rejected file, in input order, then exactly one
   * summary: the success message with the number created when some file was
   * accepted, and the "nothing uploaded" error when none was.
   */
  lemma BatchSummary(uploadPin: string, pin: string, files: seq<UploadedFile>, c: BatchContext,
                     guess: string -> Option<string>)
    ensures !PinRejects(uploadPin, pin) && files != [] ==>
            var o := HandleUpload(uploadPin, pin, files, c, guess);
            var accepted := AcceptedFiles(files, ByteLimit(c.maxMb));
            && |o.rows| == |accepted|
            && (forall k :: 0 <= k < |accepted| ==> o.rows[k] == NewRow(c, accepted[k], guess))
            && o.msgs == RejectWarnings(files, c.maxMb)
                         + [if accepted != [] then FilesUploaded(|accepted|) else NothingUploaded]
  {
    if !PinRejects(uploadPin, pin) && files != [] {
      var t := Batch(files, c, guess);
      var accepted := AcceptedFiles(files, ByteLimit(c.maxMb));
      assert HandleUpload(uploadPin, pin, files, c, guess) == Outcome(t.rows, t.warnings + Summary(t));
      BatchWritesAcceptedFiles(files, c, guess);
      BatchWarnings(files, c, guess);
      BatchCounts(files, c, guess);
      assert Summary(t) == [if accepted != [] then FilesUploaded(|accepted|) else NothingUploaded];
    }
  }

  /** Some file is uploaded exactly when some file of the batch is within the limit and of an allowed type. */
  lemma UploadSucceedsIffSomeFileAccepted(files: seq<UploadedFile>, c: BatchContext, guess: string -> Option<string>)
    ensures Batch(files, c, guess).created > 0 <==>
            exists f :: f in files && FileVerdict(f, ByteLimit(c.maxMb)) == Accepted
  {
    var accepted := AcceptedFiles(files, ByteLimit(c.maxMb));
    assert Batch(files, c, guess).created == |accepted| by {
      BatchWritesAcceptedFiles(files, c, guess);
      BatchCounts(files, c, guess);
    }
    AcceptedFilesExactly(files, ByteLimit(c.maxMb));
    if accepted != [] {
      assert accepted[0] in accepted;
    }
  }

  // ---------- first_opened_at ----------

  /** The first-open stamp after a visit at `now`: written only when unset. */
  function FirstOpened(prev: Option<int>, now: int): (r: Option<int>)
    ensures prev.None? ==> r == Some(now)
    ensures prev.Some? ==> r == prev
  {
    if prev.None? then Some(now) else prev
  }

  /** After the first visit, no later visit moves the stamp. */
  lemma FirstOpenedIsStable(prev: Option<int>, t1: int, t2: int)
    ensures FirstOpened(FirstOpened(prev, t1), t2) == FirstOpened(prev, t1)
  {
  }

  // ---------- The view ----------

  /** The first visit stamps `first_opened_at`; later visits leave it alone. */
  method StampFirstOpen(g: Gallery, now: int)
    modifies g`firstOpenedAt
    ensures g.firstOpenedAt == FirstOpened(old(g.firstOpenedAt), now)
  {
    if g.firstOpenedAt.None? {
      g.firstOpenedAt := Some(now);
    }
  }

  /** The loop of `gallery_view` over the files of one upload. */
  method UploadFiles(g: Gallery, files: seq<UploadedFile>, c: BatchContext, guess: string -> Option<string>)
    returns (created: nat, errors: nat, warnings: seq<Message>)
    requires g.Valid() && c.gallery == g.uuid
    modifies g`media
    ensures g.Valid()
    ensures var t := Batch(files, c, guess);
            && g.media == old(g.media) + t.rows
            && created == t.created && errors == t.errors && warnings == t.warnings
  {
    created, errors, warnings := 0, 0, [];
    var maxBytes := ByteLimit(c.maxMb);
    var i := 0;
    while i < |files|
      invariant 0 <= i <= |files|
      invariant g.Valid()
      invariant var t := Batch(files[..i], c, guess);
                && g.media == old(g.media) + t.rows
                && created == t.created && errors == t.errors && warnings == t.warnings
    {
      var f := files[i];
      assert files[..i + 1][..i] == files[..i];
      var sizeOk := f.size.GetOr(0) <= maxBytes;
      var mime := f.contentType.GetOr("");
      var typeOk := StartsWith(mime, "image/") || StartsWith(mime, "video/");
      if !sizeOk {
        warnings := warnings + [FileTooLarge(f.name, c.maxMb)];
        errors := errors + 1;
      } else if !typeOk {
        warnings := warnings + [FileTypeNotAllowed(f.name, mime)];
        errors := errors + 1;
      } else {
        var item := new MediaItem(g.uuid, AsFieldFile(f), c.caption, c.uploader);
        var row := item.Save(guess, c.now);
        g.media := g.media + [row];
        created := created + 1;
      }
      i := i + 1;
    }
    assert files[..|files|] == files;
  }

  /** The branch of `gallery_view` for a POST whose form validates; every exit redirects to the page. */
  method ProcessUpload(g: Gallery, uploadPin: string, pin: string, files: seq<UploadedFile>,
                       c: BatchContext, guess: string -> Option<string>)
    returns (msgs: seq<Message>)
    requires g.Valid() && c.gallery == g.uuid
    modifies g`media
    ensures g.Valid()
    ensures var o := HandleUpload(uploadPin, pin, files, c, guess);
            g.media == old(g.media) + o.rows && msgs == o.msgs
  {
    if PinRejects(uploadPin, pin) {
      return [WrongUploadPin];
    }
    if files == [] {
      return [NoFilesChosen];
    }
    var created, errors, warnings := UploadFiles(g, files, c, guess);
    ghost var t := Batch(files, c, guess);
    assert HandleUpload(uploadPin, pin, files, c, guess) == Outcome(t.rows, t.warnings + Summary(t));
    msgs := warnings;
    if created > 0 {
      msgs := msgs + [FilesUploaded(created)];
    }
    if errors > 0 && created == 0 {
      msgs := msgs + [NothingUploaded];
    }
    assert msgs == t.warnings + Summary(t);
  }

  /**
   * The page the view renders: the gallery's template, its media in display
   * order (each of them the gallery's own), the upload limit, whether a PIN
   * is asked for, and the form.
   */
  function GalleryPage(g: Gallery, maxMb: int, form: FormState): (r: Response)
    reads g
    requires g.Valid()
    ensures r.Render? && r.template == TemplateName(g.templateKey)
    ensures r.context.gallery == g.uuid && r.context.maxMb == maxMb && r.context.form == form
    ensures r.context.needPin <==> !AllSpace(g.uploadPin)
    ensures InDisplayOrder(r.context.mediaItems) && multiset(r.context.mediaItems) == multiset(g.media)
    ensures forall row :: row in r.context.mediaItems ==> row.gallery == g.uuid
  {
    var items := SortForDisplay(g.media);
    assert forall row :: row in items ==> row in multiset(g.media);
    Render(TemplateName(g.templateKey), Context(g.uuid, items, maxMb, NeedPin(g.uploadPin), form))
  }

  /**
   * `gallery_view` on a gallery already found: stamps the first visit, then
   * either processes an upload and redirects back to the page, or renders
   * the page with the media in display order.
   */
  method GalleryView(g: Gallery, req: Request, now: int, maxMbSetting: Option<int>, guess: string -> Option<string>)
    returns (resp: Response, msgs: seq<Message>)
    requires g.Valid()
    modifies g`firstOpenedAt, g`media
    ensures g.Valid()
    ensures g.firstOpenedAt == FirstOpened(old(g.firstOpenedAt), now)
    ensures PostAccepted(req) ==>
              var c := BatchContext(g.uuid, Strip(CleanField(req.caption)), req.user, MaxMb(maxMbSetting), now);
              var o := HandleUpload(g.uploadPin, CleanField(req.pin), req.files, c, guess);
              && g.media == old(g.media) + o.rows
              && msgs == o.msgs
              && resp == Redirect(GalleryPath(g.uuid))
    ensures !PostAccepted(req) ==>
              && g.media == old(g.media)
              && msgs == []
              && resp == GalleryPage(g, MaxMb(maxMbSetting), if req.httpMethod == "POST" then BoundWithErrors else Unbound)
  {
    StampFirstOpen(g, now);
    var maxMb := MaxMb(maxMbSetting);
    if req.httpMethod == "POST" && FormValid(req) {
      var c := BatchContext(g.uuid, Strip(CleanField(req.caption)), req.user, maxMb, now);
      msgs := ProcessUpload(g, g.uploadPin, CleanField(req.pin), req.files, c, guess);
      resp := Redirect(GalleryPath(g.uuid));
    } else {
      var form := if req.httpMethod == "POST" then BoundWithErrors else Unbound;
      msgs := [];
      resp := GalleryPage(g, maxMb, form);
    }
  }

  /**
   * The route and `get_object_or_404`: a path that is not a gallery page, or
   * names no gallery, is a 404 and changes nothing; otherwise the addressed
   * gallery's view runs: it stamps the first visit, then either stores the
   * upload and redirects to the page or renders the page, and only that
   * gallery's `first_opened_at` and media may change.
   */
  method ServeGallery(galleries: map<Uuid, Gallery>, path: string, req: Request, now: int,
                      maxMbSetting: Option<int>, guess: string -> Option<string>)
    returns (resp: Response, msgs: seq<Message>)
    requires forall u :: u in galleries ==> galleries[u].uuid == u && galleries[u].Valid()
    modifies galleries.Values`firstOpenedAt, galleries.Values`media
    ensures forall u :: u in galleries ==> galleries[u].Valid()
    ensures GalleryRoute(path).None? || GalleryRoute(path).value !in galleries ==>
              resp == NotFound && msgs == [] && forall u :: u in galleries ==> unchanged(galleries[u])
    ensures GalleryRoute(path).Some? && GalleryRoute(path).value in galleries ==>
              var u := GalleryRoute(path).value;
              var g := galleries[u];
              && g.firstOpenedAt == FirstOpened(old(g.firstOpenedAt), now)
              && forall v :: v in galleries && v != u ==> unchanged(galleries[v])
    ensures GalleryRoute(path).Some? && GalleryRoute(path).value in galleries && PostAccepted(req) ==>
              var u := GalleryRoute(path).value;
              var g := galleries[u];
              var c := BatchContext(u, Strip(CleanField(req.caption)), req.user, MaxMb(maxMbSetting), now);
              var o := HandleUpload(g.uploadPin, CleanField(req.pin), req.files, c, guess);
              && g.media == old(g.media) + o.rows
              && msgs == o.msgs
              && resp == Redirect(GalleryPath(u))
    ensures GalleryRoute(path).Some? && GalleryRoute(path).value in galleries && !PostAccepted(req) ==>
              var u := GalleryRoute(path).value;
              var g := galleries[u];
              && g.media == old(g.media)
              && msgs == []
              && resp == GalleryPage(g, MaxMb(maxMbSetting), if req.httpMethod == "POST" then BoundWithErrors else Unbound)
  {
    var route := GalleryRoute(path);
    if route.None? || route.value !in galleries {
      return NotFound, [];
    }
    var g := galleries[route.value];
    resp, msgs := GalleryView(g, req, now, maxMbSetting, guess);
  }
}
