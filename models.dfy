/**
 * The entities of the gallery application (main/models.py): galleries,
 * media items, QR tags and visit logs; the upload path of a media file,
 * a gallery's public slug, and what `MediaItem.save` derives before the
 * row is written.
 */
module Models {
  import opened Optional
  import opened Text

  /** A UUID as its 128-bit integer value (Python's `uuid.UUID.int`). */
  type Uuid = n: nat | n < 0x1_0000_0000_0000_0000_0000_0000_0000_0000

  /** Primary key of a Django user (the uploader or the owner). */
  type UserId = nat

  lemma {:induction false} Pow16Add(a: nat, b: nat)
    ensures Pow16(a + b) == Pow16(a) * Pow16(b)
  {
    if a > 0 {
      Pow16Add(a - 1, b);
      assert Pow16(a + b) == 16 * Pow16(a - 1 + b);
    }
  }

  /** 32 hex digits cover exactly the 128-bit UUID values. */
  lemma UuidLimit()
    ensures Pow16(32) == 0x1_0000_0000_0000_0000_0000_0000_0000_0000
  {
    assert Pow16(4) == 0x1_0000;
    Pow16Add(4, 4);
    Pow16Add(8, 8);
    Pow16Add(16, 16);
  }

  // ---------- str(uuid), public_url_slug, media_upload_path ----------

  /** The positions of the four hyphens in the canonical 8-4-4-4-12 form. */
  predicate IsHyphenPosition(i: int) {
    i == 8 || i == 13 || i == 18 || i == 23
  }

  /** Where the character at position `i` of the hyphenated form sits among the 32 hex digits. */
  function HexIndex(i: nat): (k: nat)
    requires i < 36 && !IsHyphenPosition(i)
    ensures k < 32
  {
    if i < 8 then i else if i < 13 then i - 1 else if i < 18 then i - 2 else if i < 23 then i - 3 else i - 4
  }

  /** Where the `k`-th hex digit sits in the hyphenated form. */
  function CharIndex(k: nat): (i: nat)
    requires k < 32
    ensures i < 36 && !IsHyphenPosition(i) && HexIndex(i) == k
  {
    if k < 8 then k else if k < 12 then k + 1 else if k < 16 then k + 2 else if k < 20 then k + 3 else k + 4
  }

  /**
   * Python's `str(uuid)`: the 32 digits of `'%032x' % u`, split 8-4-4-4-12
   * by hyphens. Hyphens stand exactly at the four group boundaries and every
   * other character is a lower-case hex digit.
   */
  function UuidString(u: Uuid): (r: string)
    ensures |r| == 36
    ensures forall i :: 0 <= i < |r| ==> (r[i] == '-' <==> IsHyphenPosition(i))
    ensures forall i :: 0 <= i < |r| && !IsHyphenPosition(i) ==> IsLowerHex(r[i])
  {
    var h := HexFixed(u, 32);
    seq(36, i requires 0 <= i < 36 => if IsHyphenPosition(i) then '-' else h[HexIndex(i)])
  }

  /** The text Django's `uuid` path converter accepts: 8-4-4-4-12 lower-case hex digits. */
  predicate IsUuidText(s: string) {
    && |s| == 36
    && forall i :: 0 <= i < |s| ==> if IsHyphenPosition(i) then s[i] == '-' else IsLowerHex(s[i])
  }

  /** The UUID a canonical UUID text denotes (`uuid.UUID(s)` after the converter matched). */
  function ParseUuid(s: string): Option<Uuid> {
    if IsUuidText(s) then
      var value := HexValue(seq(32, k requires 0 <= k < 32 => s[CharIndex(k)]));
      if value < 0x1_0000_0000_0000_0000_0000_0000_0000_0000 then Some(value) else None
    else None
  }

  /** `uuid.UUID(str(u)) == u`: the canonical text of a UUID names that UUID and no other. */
  lemma UuidRoundTrip(u: Uuid)
    ensures ParseUuid(UuidString(u)) == Some(u)
  {
    UuidLimit();
    var h := HexFixed(u, 32);
    var s := UuidString(u);
    assert IsUuidText(s);
    var digits := seq(32, k requires 0 <= k < 32 => s[CharIndex(k)]);
    assert digits == h;
    HexFixedRoundTrip(u, 32);
    assert HexValue(digits) == u;
  }

  lemma IndexInverse(i: nat)
    requires i < 36 && !IsHyphenPosition(i)
    ensures CharIndex(HexIndex(i)) == i
  {
  }

  /**
   * The converter's text is the canonical one: a text that names a UUID is
   * exactly `str` of that UUID, so each UUID has one URL and one upload
   * directory.
   */
  lemma ParseUuidCanonical(s: string)
    ensures ParseUuid(s).Some? ==> UuidString(ParseUuid(s).value) == s
  {
    if ParseUuid(s).Some? {
      var u := ParseUuid(s).value;
      var digits := seq(32, k requires 0 <= k < 32 => s[CharIndex(k)]);
      assert HexValue(digits) == u;
      HexValueRoundTrip(digits);
      var r := UuidString(u);
      forall i | 0 <= i < 36 ensures r[i] == s[i] {
        if !IsHyphenPosition(i) {
          IndexInverse(i);
        }
      }
    }
  }

  lemma UuidStringInjective(u: Uuid, v: Uuid)
    ensures UuidString(u) == UuidString(v) ==> u == v
  {
    UuidRoundTrip(u);
    UuidRoundTrip(v);
  }

  /** `media_upload_path`: `uploads/<gallery uuid>/<original file name>`. */
  function MediaUploadPath(gallery: Uuid, filename: string): string {
    "uploads/" + UuidString(gallery) + "/" + filename
  }

  /** Splits a stored file name into the gallery it is filed under and the original name. */
  function ParseUploadPath(p: string): Option<(Uuid, string)> {
    if |p| >= 45 && p[..8] == "uploads/" && p[44] == '/' then
      match ParseUuid(p[8..44])
      case Some(u) => Some((u, p[45..]))
      case None => None
    else None
  }

  /** An upload path names its gallery and its original file name: nothing is lost in the path. */
  lemma UploadPathRoundTrip(gallery: Uuid, filename: string)
    ensures ParseUploadPath(MediaUploadPath(gallery, filename)) == Some((gallery, filename))
  {
    var u := UuidString(gallery);
    var p := MediaUploadPath(gallery, filename);
    assert p[..8] == "uploads/";
    assert p[8..44] == u;
    assert p[44] == '/';
    assert p[45..] == filename;
    UuidRoundTrip(gallery);
  }

  /** Files of different galleries, or of different names, never share a stored path. */
  lemma UploadPathsAreDistinct(g1: Uuid, f1: string, g2: Uuid, f2: string)
    requires (g1, f1) != (g2, f2)
    ensures MediaUploadPath(g1, f1) != MediaUploadPath(g2, f2)
  {
    UploadPathRoundTrip(g1, f1);
    UploadPathRoundTrip(g2, f2);
  }

  // ---------- Entities ----------

  datatype Occasion = Valentine | WomensDay | Birthday | Anniversary | Other

  /** `MediaItem.MediaKind`: AUTO ("auto"), IMAGE ("image"), VIDEO ("video"). */
  datatype MediaKind = Auto | Image | Video

  /**
   * A `FieldFile`: its name, whether it exposes a `size` attribute and what
   * that size is (None standing for a falsy size), and whether the storage
   * has already saved its content.
   */
  datatype StoredFile = StoredFile(name: string, hasSize: bool, size: Option<nat>, committed: bool)

  /** `bool(field_file)`: a file field is truthy when it holds a name. */
  predicate IsPresent(f: StoredFile) {
    f.name != []
  }

  /** A `MediaItem` row as the database holds it. */
  datatype MediaRow = MediaRow(
    gallery: Uuid,
    file: StoredFile,
    kind: MediaKind,
    caption: string,
    sortOrder: nat,
    isFeatured: bool,
    mimeType: string,
    fileSize: int,
    durationSec: nat,
    uploadedBy: Option<UserId>,
    uploadedAt: int)

  /** A `QRTag` row: the gallery it leads to, a serial, the token and a note. */
  datatype QRTag = QRTag(gallery: Uuid, serial: string, token: string, note: string, createdAt: int)

  /** A `VisitLog` row. */
  datatype VisitLog = VisitLog(gallery: Uuid, occurredAt: int, ip: Option<string>, userAgent: string)

  // ---------- What MediaItem.save derives ----------

  /**
   * The `mime_type` after `save`: an empty one is filled from the guess on
   * the file name (or "" when there is no guess) when a file is present; a
   * non-empty one is never replaced.
   */
  function SavedMime(file: StoredFile, mime: string, guess: string -> Option<string>): (r: string)
    ensures mime != "" ==> r == mime
    ensures !IsPresent(file) ==> r == mime
    ensures IsPresent(file) && mime == "" ==> r == guess(file.name).GetOr("")
  {
    if IsPresent(file) && mime == "" then guess(file.name).GetOr("") else mime
  }

  /** The `file_size` after `save`: the file's size (0 when falsy) if the file exposes one. */
  function SavedSize(file: StoredFile, size: int): (r: int)
    ensures IsPresent(file) && file.hasSize ==> r == file.size.GetOr(0) && r >= 0
    ensures !(IsPresent(file) && file.hasSize) ==> r == size
  {
    if IsPresent(file) && file.hasSize then file.size.GetOr(0) else size
  }

  /**
   * The `kind` after `save`: only AUTO is ever resolved, to IMAGE for an
   * "image/" MIME type and to VIDEO for a "video/" one; any other MIME type,
   * the empty one included, leaves it AUTO.
   */
  function InferKind(kind: MediaKind, mime: string): (r: MediaKind)
    ensures kind != Auto ==> r == kind
    ensures kind == Auto ==> (r == Image <==> StartsWith(mime, "image/"))
    ensures kind == Auto ==> (r == Video <==> StartsWith(mime, "video/"))
    ensures r == Auto <==> kind == Auto && !StartsWith(mime, "image/") && !StartsWith(mime, "video/")
  {
    if kind == Auto && mime != "" then
      if StartsWith(mime, "image/") then Image
      else if StartsWith(mime, "video/") then Video
      else kind
    else kind
  }

  /**
   * `FileField.pre_save` during `super().save()`: content not yet saved is
   * stored under `media_upload_path`, and the field then holds that name.
   */
  function Commit(file: StoredFile, gallery: Uuid): StoredFile {
    if IsPresent(file) && !file.committed
    then file.(name := MediaUploadPath(gallery, file.name), committed := true)
    else file
  }

  /**
   * A file not yet stored ends up committed under its gallery's folder with
   * its original name; a stored or empty one is left as it is; the size is
   * never touched.
   */
  lemma CommitStoresUnderGallery(file: StoredFile, gallery: Uuid)
    ensures var r := Commit(file, gallery);
            && (IsPresent(file) && !file.committed ==> r.committed && ParseUploadPath(r.name) == Some((gallery, file.name)))
            && (!IsPresent(file) || file.committed ==> r == file)
            && r.hasSize == file.hasSize && r.size == file.size
  {
    UploadPathRoundTrip(gallery, file.name);
  }

  /**
   * Saving the saved row again derives nothing new: the second `save` sees
   * the committed file, and when the name guess does not change with the
   * upload folder in front of the name, the derived fields are a fixed point.
   */
  lemma SaveIsIdempotent(file: StoredFile, mime: string, size: int, kind: MediaKind, gallery: Uuid, guess: string -> Option<string>)
    requires IsPresent(file) && !file.committed ==> guess(MediaUploadPath(gallery, file.name)) == guess(file.name)
    ensures var f, m := Commit(file, gallery), SavedMime(file, mime, guess);
            && SavedMime(f, m, guess) == m
            && SavedSize(f, SavedSize(file, size)) == SavedSize(file, size)
            && InferKind(InferKind(kind, m), SavedMime(f, m, guess)) == InferKind(kind, m)
            && Commit(f, gallery) == f
  {
  }

  /**
   * The row that creating a media item and saving it writes: defaults for
   * everything the caller does not pass (`sort_order` 0, not featured,
   * duration 0, kind AUTO, empty MIME type, size 0), then the derivation of
   * `save`, then the file committed under its upload path.
   */
  function CreatedRow(gallery: Uuid, file: StoredFile, caption: string, uploader: Option<UserId>,
                      guess: string -> Option<string>, now: int): MediaRow
  {
    var mime := SavedMime(file, "", guess);
    MediaRow(gallery, Commit(file, gallery), InferKind(Auto, mime), caption, 0, false,
             mime, SavedSize(file, 0), 0, uploader, now)
  }

  /**
   * A created row keeps what the caller passed and the field defaults; its
   * MIME type is the guess on the file name, its size the file's, and its
   * kind IMAGE or VIDEO exactly when the MIME type says so; its file is the
   * committed one.
   */
  lemma CreatedRowFields(gallery: Uuid, file: StoredFile, caption: string, uploader: Option<UserId>,
                         guess: string -> Option<string>, now: int)
    ensures var r := CreatedRow(gallery, file, caption, uploader, guess, now);
            && r.gallery == gallery && r.caption == caption && r.uploadedBy == uploader && r.uploadedAt == now
            && r.sortOrder == 0 && !r.isFeatured && r.durationSec == 0
            && (IsPresent(file) ==> r.mimeType == guess(file.name).GetOr(""))
            && (!IsPresent(file) ==> r.mimeType == "" && r.kind == Auto && r.file == file)
            && r.fileSize == (if IsPresent(file) && file.hasSize then file.size.GetOr(0) else 0)
            && (r.kind == Image <==> StartsWith(r.mimeType, "image/"))
            && (r.kind == Video <==> StartsWith(r.mimeType, "video/"))
            && r.file == Commit(file, gallery)
  {
  }

  /** A media item: the object `save` updates in place before the row is written. */
  class MediaItem {
    var gallery: Uuid
    var file: StoredFile
    var kind: MediaKind
    var caption: string
    var sortOrder: nat
    var isFeatured: bool
    var mimeType: string
    var fileSize: int
    var durationSec: nat
    var uploadedBy: Option<UserId>
    var uploadedAt: int
    /** Django's `_state.adding`: true until the first save inserts the row. */
    var adding: bool

    /** `MediaItem(gallery=..., file=..., caption=..., uploaded_by=...)` with the field defaults. */
    constructor (gallery: Uuid, file: StoredFile, caption: string, uploadedBy: Option<UserId>)
      ensures this.gallery == gallery && this.file == file && this.caption == caption
      ensures this.uploadedBy == uploadedBy
      ensures kind == Auto && sortOrder == 0 && !isFeatured && mimeType == "" && fileSize == 0
      ensures durationSec == 0 && adding
    {
      this.gallery := gallery;
      this.file := file;
      this.caption := caption;
      this.uploadedBy := uploadedBy;
      kind := Auto;
      sortOrder := 0;
      isFeatured := false;
      mimeType := "";
      fileSize := 0;
      durationSec := 0;
      uploadedAt := 0;
      adding := true;
    }

    function Row(): MediaRow
      reads this
    {
      MediaRow(gallery, file, kind, caption, sortOrder, isFeatured, mimeType, fileSize,
               durationSec, uploadedBy, uploadedAt)
    }

    /** The `kind` step of `save`: an AUTO item takes the kind its MIME type names. */
    method ResolveKind()
      modifies this`kind
      ensures kind == InferKind(old(kind), mimeType)
    {
      if kind == Auto && mimeType != "" {
        if StartsWith(mimeType, "image/") {
          kind := Image;
        } else if StartsWith(mimeType, "video/") {
          kind := Video;
        }
      }
    }

    /**
     * `MediaItem.save`: fills the MIME type, the size and the kind, then
     * persists (committing the file and stamping `uploaded_at` on insert)
     * and returns the row written.
     */
    method Save(guess: string -> Option<string>, now: int) returns (row: MediaRow)
      modifies this
      ensures mimeType == SavedMime(old(file), old(mimeType), guess)
      ensures fileSize == SavedSize(old(file), old(fileSize))
      ensures kind == InferKind(old(kind), mimeType)
      ensures file == Commit(old(file), gallery)
      ensures uploadedAt == (if old(adding) then now else old(uploadedAt)) && !adding
      ensures gallery == old(gallery) && caption == old(caption) && sortOrder == old(sortOrder)
      ensures isFeatured == old(isFeatured) && durationSec == old(durationSec)
      ensures uploadedBy == old(uploadedBy)
      ensures row == Row()
    {
      if IsPresent(file) && mimeType == "" {
        mimeType := guess(file.name).GetOr("");
      }
      assert mimeType == SavedMime(old(file), old(mimeType), guess);
      if IsPresent(file) && file.hasSize {
        fileSize := file.size.GetOr(0);
      }
      assert fileSize == SavedSize(old(file), old(fileSize));
      ResolveKind();
      // super().save(): pre_save of the file field and of uploaded_at, then the insert
      file := Commit(file, gallery);
      if adding {
        uploadedAt := now;
        adding := false;
      }
      row := Row();
    }
  }

  // ---------- Gallery ----------

  /** A gallery: the object the gallery view updates (first visit, uploads). */
  class Gallery {
    const uuid: Uuid
    var title: string
    var occasion: Occasion
    var templateKey: string
    var firstOpenedAt: Option<int>
    var viewPin: string
    var uploadPin: string
    var isActive: bool
    /** The gallery's `media` rows, in insertion order. */
    var media: seq<MediaRow>

    /** Every media row of the gallery points back to it. */
    ghost predicate Valid()
      reads this
    {
      forall r :: r in media ==> r.gallery == uuid
    }

    constructor (uuid: Uuid)
      ensures this.uuid == uuid && title == "" && occasion == Other && templateKey == "default"
      ensures firstOpenedAt == None && viewPin == "" && uploadPin == "" && isActive
      ensures media == [] && Valid()
    {
      this.uuid := uuid;
      title := "";
      occasion := Other;
      templateKey := "default";
      firstOpenedAt := None;
      viewPin := "";
      uploadPin := "";
      isActive := true;
      media := [];
    }

    /** `public_url_slug`: the canonical text of the gallery's UUID, which names this gallery only. */
    function PublicUrlSlug(): (r: string)
      ensures |r| == 36
      ensures ParseUuid(r) == Some(uuid)
    {
      UuidRoundTrip(uuid);
      UuidString(uuid)
    }
  }

  // ---------- Ordering: Meta.ordering = ["sort_order", "uploaded_at"] ----------

  /** `a` may be listed before `b`: ascending by `sort_order`, then by `uploaded_at`. */
  predicate DisplayBefore(a: MediaRow, b: MediaRow) {
    a.sortOrder < b.sortOrder || (a.sortOrder == b.sortOrder && a.uploadedAt <= b.uploadedAt)
  }

  predicate InDisplayOrder(rows: seq<MediaRow>) {
    forall i, j :: 0 <= i < j < |rows| ==> DisplayBefore(rows[i], rows[j])
  }

  function InsertForDisplay(x: MediaRow, rows: seq<MediaRow>): (r: seq<MediaRow>)
    requires InDisplayOrder(rows)
    ensures InDisplayOrder(r)
    ensures multiset(r) == multiset(rows) + multiset{x}
    ensures forall y :: y in r ==> y == x || y in rows
  {
    if rows == [] then [x]
    else if DisplayBefore(x, rows[0]) then [x] + rows
    else
      var rest := InsertForDisplay(x, rows[1..]);
      assert rows == [rows[0]] + rows[1..];
      assert forall y :: y in rest ==> DisplayBefore(rows[0], y);
      [rows[0]] + rest
  }

  /** The rows in display order: ordered by (`sort_order`, `uploaded_at`) and a permutation of the input. */
  function SortForDisplay(rows: seq<MediaRow>): (r: seq<MediaRow>)
    ensures InDisplayOrder(r)
    ensures multiset(r) == multiset(rows)
  {
    if rows == [] then []
    else
      assert rows == [rows[0]] + rows[1..];
      InsertForDisplay(rows[0], SortForDisplay(rows[1..]))
  }
}
