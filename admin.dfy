/**
 * The helpers of the admin site (main/admin.py): the shortened user agent,
 * the unit of a file size, the media preview, the public path of a gallery
 * and the `generate_qr_tags` action that adds QR tags to galleries.
 */
module Admin {
  import opened Optional
  import opened Text
  import opened Models
  import opened Views

  // ---------- VisitLogAdmin.ua_short ----------

  /** How many characters of a user agent the visit list shows. */
  const UaLimit := 80

  /** The ellipsis appended to a shortened user agent. */
  const Ellipsis: char := '\U{2026}'

  /**
   * `ua_short`: "-" when the user agent is empty, the user agent itself when it
   * fits in 80 characters, otherwise its first 80 characters and an ellipsis.
   */
  function UaShort(log: VisitLog): (r: string)
    ensures log.userAgent == [] ==> r == "-"
    ensures 0 < |log.userAgent| <= UaLimit ==> r == log.userAgent
    ensures |log.userAgent| > UaLimit ==>
              |r| == UaLimit + 1 && r[..UaLimit] == log.userAgent[..UaLimit] && r[UaLimit] == Ellipsis
    ensures |r| <= UaLimit + 1
  {
    var ua := log.userAgent;
    if ua == [] then "-"
    else if |ua| > UaLimit then ua[..UaLimit] + [Ellipsis]
    else ua
  }

  /** Shortening a shortened user agent changes nothing: the list shows at most one ellipsis. */
  lemma UaShortIsStable(log: VisitLog)
    ensures UaShort(log.(userAgent := UaShort(log))) == UaShort(log)
  {
    var r := UaShort(log);
    if |log.userAgent| > UaLimit {
      assert r[..UaLimit] + [Ellipsis] == r;
    }
  }

  // ---------- MediaItemAdmin.file_size_fmt ----------

  const KiB := 1024
  const MiB := 1024 * 1024

  /**
   * The shape of `file_size_fmt`'s text: a size shown in megabytes or in
   * kilobytes (its one-decimal number is not modelled), or the exact text of
   * a size in bytes.
   */
  datatype SizeLabel = InMegabytes(bytes: int) | InKilobytes(bytes: int) | InBytes(text: string)

  /**
   * `file_size_fmt`: MB from 1024² bytes up, KB from 1024 bytes up, otherwise
   * the integer followed by " B".
   */
  function FileSizeFmt(obj: MediaRow): (r: SizeLabel)
    ensures r.InMegabytes? <==> obj.fileSize >= MiB
    ensures r.InKilobytes? <==> KiB <= obj.fileSize < MiB
    ensures r.InBytes? <==> obj.fileSize < KiB
    ensures !r.InBytes? ==> r.bytes == obj.fileSize
    ensures r.InBytes? ==>
              |r.text| >= 3 && r.text[|r.text| - 2..] == " B"
              && ParseInt(r.text[..|r.text| - 2]) == Some(obj.fileSize)
              && IsIntText(r.text[..|r.text| - 2])
  {
    var s := obj.fileSize;
    if s >= MiB then InMegabytes(s)
    else if s >= KiB then InKilobytes(s)
    else
      var digits := IntToString(s);
      IntToStringRoundTrip(s);
      assert (digits + " B")[..|digits|] == digits;
      InBytes(digits + " B")
  }

  // ---------- MediaItemInline.preview and MediaItemAdmin.preview ----------

  /** What a preview cell shows. */
  datatype PreviewHtml =
    | NoFile                               // "-"
    | ImageTag(src: string, maxHeight: nat) // <img src="..." style="max-height:...px;"/>
    | VideoPlaceholder                     // the clapper board and "Video"
    | NotPreviewable                       // "—"

  /** Height limit of the preview in the gallery's media inline. */
  const InlinePreviewHeight := 120

  /** Height limit of the preview on a media item's own admin page. */
  const AdminPreviewHeight := 200

  /**
   * Both `preview` methods: no item or no file gives "-"; an "image/" MIME
   * type gives an image of the file; a "video/" one the video placeholder;
   * any other MIME type, the empty one included, "—".
   */
  function Preview(obj: Option<MediaRow>, maxHeight: nat): (r: PreviewHtml)
    ensures r == NoFile <==> obj.None? || !IsPresent(obj.value.file)
    ensures r.ImageTag? <==> obj.Some? && IsPresent(obj.value.file) && StartsWith(obj.value.mimeType, "image/")
    ensures r.ImageTag? ==> r.src == obj.value.file.name && r.maxHeight == maxHeight
    ensures r == VideoPlaceholder <==>
              obj.Some? && IsPresent(obj.value.file)
              && !StartsWith(obj.value.mimeType, "image/") && StartsWith(obj.value.mimeType, "video/")
    ensures r == NotPreviewable <==>
              obj.Some? && IsPresent(obj.value.file)
              && !StartsWith(obj.value.mimeType, "image/") && !StartsWith(obj.value.mimeType, "video/")
  {
    if obj.None? || !IsPresent(obj.value.file) then NoFile
    else if StartsWith(obj.value.mimeType, "image/") then ImageTag(obj.value.file.name, maxHeight)
    else if StartsWith(obj.value.mimeType, "video/") then VideoPlaceholder
    else NotPreviewable
  }

  /** `MediaItemInline.preview`: an image preview is at most 120 pixels high. */
  function InlinePreview(obj: Option<MediaRow>): (r: PreviewHtml)
    ensures r == NoFile <==> obj.None? || !IsPresent(obj.value.file)
    ensures r.ImageTag? <==> obj.Some? && IsPresent(obj.value.file) && StartsWith(obj.value.mimeType, "image/")
    ensures r.ImageTag? ==> r.src == obj.value.file.name && r.maxHeight == 120
  {
    Preview(obj, InlinePreviewHeight)
  }

  /** `MediaItemAdmin.preview`: an image preview is at most 200 pixels high. */
  function AdminPreview(obj: Option<MediaRow>): (r: PreviewHtml)
    ensures r == NoFile <==> obj.None? || !IsPresent(obj.value.file)
    ensures r.ImageTag? <==> obj.Some? && IsPresent(obj.value.file) && StartsWith(obj.value.mimeType, "image/")
    ensures r.ImageTag? ==> r.src == obj.value.file.name && r.maxHeight == 200
  {
    Preview(obj, AdminPreviewHeight)
  }

  /** The two previews show the same thing and differ only in the image's height limit. */
  lemma PreviewsDifferOnlyInHeight(obj: Option<MediaRow>)
    ensures InlinePreview(obj).ImageTag? <==> AdminPreview(obj).ImageTag?
    ensures !InlinePreview(obj).ImageTag? ==> InlinePreview(obj) == AdminPreview(obj)
    ensures InlinePreview(obj).ImageTag? ==>
              InlinePreview(obj).src == AdminPreview(obj).src
              && InlinePreview(obj).maxHeight == 120 && AdminPreview(obj).maxHeight == 200
  {
  }

  /**
   * For a media item created by an upload, the preview follows the kind that
   * `save` inferred: an image tag exactly for IMAGE, the video placeholder
   * exactly for VIDEO; an item left AUTO is never previewed as an image or a
   * video.
   */
  lemma PreviewFollowsSavedKind(gallery: Uuid, file: StoredFile, caption: string, uploader: Option<UserId>,
                                guess: string -> Option<string>, now: int, maxHeight: nat)
    requires IsPresent(file)
    ensures var row := CreatedRow(gallery, file, caption, uploader, guess, now);
            && (Preview(Some(row), maxHeight).ImageTag? <==> row.kind == Image)
            && (Preview(Some(row), maxHeight) == VideoPlaceholder <==> row.kind == Video)
            && (Preview(Some(row), maxHeight) == NotPreviewable <==> row.kind == Auto)
  {
    var row := CreatedRow(gallery, file, caption, uploader, guess, now);
    CreatedRowFields(gallery, file, caption, uploader, guess, now);
    assert IsPresent(row.file) by {
      assert |MediaUploadPath(gallery, file.name)| > 0 by {
        assert MediaUploadPath(gallery, file.name)[0] == 'u';
      }
    }
  }

  // ---------- GalleryAdmin.public_path and QRTagAdmin.public_path ----------

  /**
   * `GalleryAdmin.public_path`: "/g/" and the gallery's slug. It is the
   * gallery page's path without its final slash, so it reaches the page only
   * through the slash Django's common middleware appends.
   */
  function GalleryPublicPath(g: Gallery): (r: string)
    reads g
    ensures |r| == 39 && r[..3] == "/g/" && r[3..] == g.PublicUrlSlug()
    ensures r + "/" == GalleryPath(g.uuid)
    ensures GalleryRoute(r + "/") == Some(g.uuid) && GalleryRoute(r) == None
  {
    var r := "/g/" + g.PublicUrlSlug();
    GalleryPathRoutesBack(g.uuid);
    r
  }

  /** `QRTagAdmin.public_path`: the public path of the tag's gallery. */
  function TagPublicPath(t: QRTag): (r: string)
    ensures |r| == 39 && r[..3] == "/g/" && r[3..] == UuidString(t.gallery)
    ensures GalleryRoute(r + "/") == Some(t.gallery) && GalleryRoute(r) == None
  {
    var r := "/g/" + UuidString(t.gallery);
    assert r + "/" == GalleryPath(t.gallery);
    GalleryPathRoutesBack(t.gallery);
    r
  }

  /** A tag's path is its gallery's path, and tags of different galleries have different paths. */
  lemma TagPathIsGalleryPath(g: Gallery, t: QRTag, t': QRTag)
    requires t.gallery == g.uuid
    ensures TagPublicPath(t) == GalleryPublicPath(g)
    ensures t'.gallery != t.gallery ==> TagPublicPath(t') != TagPublicPath(t)
  {
  }

  // ---------- QR tags: generate_token_hex ----------

  /** `uuid.uuid4().hex`: the 32 lower-case hex digits of a UUID. */
  function TokenHex(u: Uuid): (r: string)
    ensures |r| == 32
    ensures forall i :: 0 <= i < |r| ==> IsLowerHex(r[i])
  {
    HexFixed(u, 32)
  }

  /** Distinct UUIDs give distinct tokens. */
  lemma TokenHexInjective(u: Uuid, v: Uuid)
    requires TokenHex(u) == TokenHex(v)
    ensures u == v
  {
    UuidLimit();
    HexFixedRoundTrip(u, 32);
    HexFixedRoundTrip(v, 32);
  }

  // ---------- GenerateQRActionForm ----------

  const MinCount := 1
  const MaxCount := 200
  /** The count the action form shows before the administrator types one. */
  const InitialCount := 2

  /**
   * The `count` the bound action form cleans the submitted text to: a
   * required integer field bounded by 1 and 200, so a missing, empty,
   * non-numeric or out-of-range value makes the form invalid.
   */
  function ActionCount(raw: Option<string>): (r: Option<nat>)
    ensures r.Some? ==> MinCount <= r.value <= MaxCount
    ensures r.Some? <==> raw.Some? && ParseInt(Strip(raw.value)).Some?
                         && MinCount <= ParseInt(Strip(raw.value)).value <= MaxCount
    ensures r.Some? ==> r.value == ParseInt(Strip(raw.value)).value
  {
    if raw.None? then None
    else
      var n := ParseInt(Strip(raw.value));
      if n.Some? && MinCount <= n.value <= MaxCount then Some(n.value as nat) else None
  }

  /** Every count the field allows, typed as its decimal text, is accepted as itself. */
  lemma ActionCountAcceptsRange(n: int)
    requires MinCount <= n <= MaxCount
    ensures ActionCount(Some(IntToString(n))) == Some(n)
  {
    IntToStringRoundTrip(n);
    IntToStringIsStripped(n);
  }

  /** A count outside 1..200 is refused. */
  lemma ActionCountRefusesOutOfRange(n: int)
    requires n < MinCount || n > MaxCount
    ensures ActionCount(Some(IntToString(n))) == None
  {
    IntToStringRoundTrip(n);
    IntToStringIsStripped(n);
  }

  // ---------- generate_qr_tags as written ----------

  /**
   * What `self.action_form` can denote when the action runs. Django's
   * `ModelAdmin` keeps the form CLASS there (`action_form =
   * GenerateQRActionForm`); the bound, validated form is a local of
   * `response_action` and is never stored on the admin.
   */
  datatype ActionFormAttr =
    | NoActionForm                       // hasattr(self, "action_form") is false
    | FormClass                          // the class itself
    | BoundActionForm(count: Option<int>) // a validated instance, with its cleaned count if any

  /** The attribute `GalleryAdmin` has: its class-level `action_form`. */
  const GalleryAdminActionForm := FormClass

  /** Reading the count: the value, or the AttributeError the lookup raises. */
  datatype CountLookup = Count(n: int) | AttributeError

  /**
   * The count expression of `generate_qr_tags` as written: 2 without an
   * `action_form`, `cleaned_data.get("count", 2)` of a bound form, and an
   * AttributeError on a form class, which has no `cleaned_data`.
   */
  function CountAsWritten(attr: ActionFormAttr): (r: CountLookup)
    ensures attr == NoActionForm ==> r == Count(InitialCount)
    ensures attr.BoundActionForm? ==> r == Count(attr.count.GetOr(InitialCount))
    ensures r == AttributeError <==> attr == FormClass
  {
    match attr
    case NoActionForm => Count(InitialCount)
    case FormClass => AttributeError
    case BoundActionForm(c) => Count(c.GetOr(InitialCount))
  }

  /**
   * On `GalleryAdmin` the lookup always fails, whatever the administrator
   * typed: the action as written raises before it creates any tag.
   */
  lemma GenerateQrTagsAsWrittenRaises(raw: Option<string>)
    ensures CountAsWritten(GalleryAdminActionForm) == AttributeError
    ensures ActionCount(raw).Some? ==> CountAsWritten(GalleryAdminActionForm) != Count(ActionCount(raw).value)
  {
  }

  // ---------- generate_qr_tags: the tags it creates ----------

  /**
   * `[QRTag(gallery=gallery) for _ in range(count)]` where the table already
   * holds `start` tags: blank serial and note, a fresh token from the next
   * UUID drawn, created now.
   */
  function TagBatch(gallery: Uuid, count: nat, random: nat -> Uuid, start: nat, now: int): (r: seq<QRTag>)
    ensures |r| == count
  {
    seq(count, j requires 0 <= j < count => QRTag(gallery, "", TokenHex(random(start + j)), "", now))
  }

  /**
   * The tags the loop over the selected galleries creates, gallery by
   * gallery, when the table already holds `start` tags.
   */
  function NewTags(galleries: seq<Uuid>, count: nat, random: nat -> Uuid, start: nat, now: int): seq<QRTag>
    decreases |galleries|
  {
    if galleries == [] then []
    else
      var prev := NewTags(galleries[..|galleries| - 1], count, random, start, now);
      prev + TagBatch(galleries[|galleries| - 1], count, random, start + |prev|, now)
  }

  /** The loop's step: the tags for one more gallery of the selection follow those of the galleries before it. */
  lemma NewTagsPrefixStep(galleries: seq<Uuid>, i: nat, count: nat, random: nat -> Uuid, start: nat, now: int)
    requires i < |galleries|
    ensures var prev := NewTags(galleries[..i], count, random, start, now);
            NewTags(galleries[..i + 1], count, random, start, now)
            == prev + TagBatch(galleries[i], count, random, start + |prev|, now)
  {
    assert galleries[..i + 1][..i] == galleries[..i];
  }

  /** `total_created`: `count` tags for each selected gallery. */
  lemma {:induction false} NewTagsLength(galleries: seq<Uuid>, count: nat, random: nat -> Uuid, start: nat, now: int)
    ensures |NewTags(galleries, count, random, start, now)| == |galleries| * count
    decreases |galleries|
  {
    if galleries != [] {
      var n := |galleries| - 1;
      var prev := NewTags(galleries[..n], count, random, start, now);
      NewTagsLength(galleries[..n], count, random, start, now);
      CountStep(|NewTags(galleries, count, random, start, now)|, |prev|, count, count, n, n + 1, true);
    }
  }

  /**
   * Every new tag leads to a selected gallery, has a blank serial and note,
   * is created now, and the k-th of them takes its token from the
   * (start + k)-th UUID drawn, the table's (start + k)-th tag.
   */
  lemma {:induction false} NewTagsShape(galleries: seq<Uuid>, count: nat, random: nat -> Uuid, start: nat, now: int, k: nat)
    requires k < |NewTags(galleries, count, random, start, now)|
    ensures var t := NewTags(galleries, count, random, start, now)[k];
            && t.gallery in galleries && t.token == TokenHex(random(start + k))
            && t.serial == "" && t.note == "" && t.createdAt == now
    decreases |galleries|
  {
    var n := |galleries| - 1;
    var prev := NewTags(galleries[..n], count, random, start, now);
    var batch := TagBatch(galleries[n], count, random, start + |prev|, now);
    assert NewTags(galleries, count, random, start, now) == prev + batch;
    if k < |prev| {
      NewTagsShape(galleries[..n], count, random, start, now, k);
      assert (prev + batch)[k] == prev[k];
    } else {
      assert (prev + batch)[k] == batch[k - |prev|];
    }
  }

  /** How many of `tags` lead to gallery `g`. */
  function TagsFor(tags: seq<QRTag>, g: Uuid): nat {
    if tags == [] then 0
    else TagsFor(tags[..|tags| - 1], g) + (if tags[|tags| - 1].gallery == g then 1 else 0)
  }

  lemma {:induction false} TagsForAppend(a: seq<QRTag>, b: seq<QRTag>, g: Uuid)
    ensures TagsFor(a + b, g) == TagsFor(a, g) + TagsFor(b, g)
    decreases |b|
  {
    if b == [] {
      assert a + b == a;
    } else {
      assert (a + b)[..|a + b| - 1] == a + b[..|b| - 1];
      TagsForAppend(a, b[..|b| - 1], g);
    }
  }

  lemma {:induction false} TagBatchFor(gallery: Uuid, count: nat, random: nat -> Uuid, start: nat, now: int, g: Uuid)
    ensures TagsFor(TagBatch(gallery, count, random, start, now), g) == if gallery == g then count else 0
    decreases count
  {
    if count > 0 {
      assert TagBatch(gallery, count, random, start, now)[..count - 1] == TagBatch(gallery, count - 1, random, start, now);
      TagBatchFor(gallery, count - 1, random, start, now, g);
    }
  }

  /** The one step of non-linear arithmetic the tag counts need: one more selection adds one more batch. */
  lemma CountStep(total: nat, prev: nat, batch: nat, count: nat, before: nat, occurrences: nat, hit: bool)
    requires total == prev + batch && prev == count * before
    requires batch == (if hit then count else 0)
    requires occurrences == (if hit then before + 1 else before)
    ensures total == count * occurrences
  {
    if hit {
      assert count * (before + 1) == count * before + count;
    }
  }

  /** How many times `g` is selected. */
  function Occurrences(galleries: seq<Uuid>, g: Uuid): nat {
    if galleries == [] then 0
    else Occurrences(galleries[..|galleries| - 1], g) + (if galleries[|galleries| - 1] == g then 1 else 0)
  }

  /** Selecting one more gallery adds `count` tags for it and none for any other. */
  lemma NewTagsForSnoc(galleries: seq<Uuid>, count: nat, random: nat -> Uuid, start: nat, now: int, g: Uuid)
    requires galleries != []
    ensures var n := |galleries| - 1;
            TagsFor(NewTags(galleries, count, random, start, now), g)
            == TagsFor(NewTags(galleries[..n], count, random, start, now), g) + if galleries[n] == g then count else 0
  {
    var n := |galleries| - 1;
    var prev := NewTags(galleries[..n], count, random, start, now);
    var batch := TagBatch(galleries[n], count, random, start + |prev|, now);
    assert NewTags(galleries, count, random, start, now) == prev + batch;
    TagsForAppend(prev, batch, g);
    TagBatchFor(galleries[n], count, random, start + |prev|, now, g);
  }

  /** Each gallery gets `count` new tags for every time it is selected. */
  lemma {:induction false} NewTagsPerGallery(galleries: seq<Uuid>, count: nat, random: nat -> Uuid, start: nat, now: int, g: Uuid)
    ensures TagsFor(NewTags(galleries, count, random, start, now), g) == count * Occurrences(galleries, g)
    decreases |galleries|
  {
    if galleries != [] {
      var n := |galleries| - 1;
      var before := Occurrences(galleries[..n], g);
      NewTagsPerGallery(galleries[..n], count, random, start, now, g);
      NewTagsForSnoc(galleries, count, random, start, now, g);
      assert Occurrences(galleries, g) == if galleries[n] == g then before + 1 else before;
      CountStep(TagsFor(NewTags(galleries, count, random, start, now), g),
                TagsFor(NewTags(galleries[..n], count, random, start, now), g),
                if galleries[n] == g then count else 0, count, before, Occurrences(galleries, g), galleries[n] == g);
    } else {
      assert NewTags(galleries, count, random, start, now) == [];
      assert Occurrences(galleries, g) == 0;
    }
  }

  /** A queryset lists each gallery once. */
  predicate Distinct(galleries: seq<Uuid>) {
    forall i, j :: 0 <= i < j < |galleries| ==> galleries[i] != galleries[j]
  }

  lemma {:induction false} DistinctOccursOnce(galleries: seq<Uuid>, g: Uuid)
    requires Distinct(galleries)
    ensures Occurrences(galleries, g) == if g in galleries then 1 else 0
    decreases |galleries|
  {
    if galleries != [] {
      var n := |galleries| - 1;
      assert galleries == galleries[..n] + [galleries[n]];
      DistinctOccursOnce(galleries[..n], g);
      assert galleries[n] == g ==> g !in galleries[..n];
    }
  }

  /** Every selected gallery gets exactly `count` new tags; no other gallery gets any. */
  lemma ExactlyCountPerGallery(galleries: seq<Uuid>, count: nat, random: nat -> Uuid, start: nat, now: int, g: Uuid)
    requires Distinct(galleries)
    ensures TagsFor(NewTags(galleries, count, random, start, now), g) == if g in galleries then count else 0
  {
    NewTagsPerGallery(galleries, count, random, start, now, g);
    DistinctOccursOnce(galleries, g);
  }

  /** Distinct UUID draws give the new tags distinct tokens. */
  lemma NewTokensDistinct(galleries: seq<Uuid>, count: nat, random: nat -> Uuid, start: nat, now: int, k: nat, l: nat)
    requires k < l < |NewTags(galleries, count, random, start, now)|
    requires random(start + k) != random(start + l)
    ensures NewTags(galleries, count, random, start, now)[k].token != NewTags(galleries, count, random, start, now)[l].token
  {
    var r := NewTags(galleries, count, random, start, now);
    NewTagsShape(galleries, count, random, start, now, k);
    NewTagsShape(galleries, count, random, start, now, l);
    if r[k].token == r[l].token {
      TokenHexInjective(random(start + k), random(start + l));
    }
  }

  // ---------- GalleryAdmin.generate_qr_tags ----------

  /** The admin messages of the action. */
  datatype AdminMessage =
    | TagsCreated(total: nat, galleries: nat) // created <total> QR tags for <galleries> galleries
    | NoActionSelected                        // Django: the action form did not validate
    | NoItemsSelected                         // Django: no gallery was ticked

  /** The QR tag table, in insertion order. */
  class QrTagTable {
    var tags: seq<QRTag>

    constructor ()
      ensures tags == []
    {
      tags := [];
    }

    /**
     * The loop of `generate_qr_tags` with a valid count: `count` new tags per
     * selected gallery, appended gallery by gallery, and the total reported.
     */
    method GenerateQrTags(galleries: seq<Uuid>, count: nat, random: nat -> Uuid, now: int)
      returns (totalCreated: nat, msg: AdminMessage)
      modifies this
      ensures tags == old(tags) + NewTags(galleries, count, random, |old(tags)|, now)
      ensures totalCreated == |galleries| * count
      ensures totalCreated == |tags| - |old(tags)|
      ensures msg == TagsCreated(totalCreated, |galleries|)
    {
      totalCreated := 0;
      var i := 0;
      while i < |galleries|
        invariant 0 <= i <= |galleries|
        invariant tags == old(tags) + NewTags(galleries[..i], count, random, |old(tags)|, now)
        invariant totalCreated == |tags| - |old(tags)|
      {
        NewTagsPrefixStep(galleries, i, count, random, |old(tags)|, now);
        var batch := TagBatch(galleries[i], count, random, |tags|, now);
        ConcatAssoc(old(tags), NewTags(galleries[..i], count, random, |old(tags)|, now), batch);
        tags := tags + batch;
        totalCreated := totalCreated + |batch|;
        i := i + 1;
      }
      assert galleries[..|galleries|] == galleries;
      NewTagsLength(galleries, count, random, |old(tags)|, now);
      msg := TagsCreated(totalCreated, |galleries|);
    }

    /**
     * Running the action from the change list with the count expression
     * corrected to read the bound form: nothing selected, or a count the
     * form refuses, creates nothing; otherwise every selected gallery gets
     * the requested number of tags, and the message reports how many tags
     * were added (`count` times the number of galleries, by `NewTagsLength`).
     */
    method RunGenerateQrTags(galleries: seq<Uuid>, rawCount: Option<string>, random: nat -> Uuid, now: int)
      returns (msg: AdminMessage)
      modifies this
      ensures galleries == [] ==> tags == old(tags) && msg == NoItemsSelected
      ensures galleries != [] && ActionCount(rawCount).None? ==> tags == old(tags) && msg == NoActionSelected
      ensures galleries != [] && ActionCount(rawCount).Some? ==>
                var count := ActionCount(rawCount).value;
                && tags == old(tags) + NewTags(galleries, count, random, |old(tags)|, now)
                && msg == TagsCreated(|tags| - |old(tags)|, |galleries|)
    {
      if galleries == [] {
        return NoItemsSelected;
      }
      var count := ActionCount(rawCount);
      if count.None? {
        return NoActionSelected;
      }
      var _, m := GenerateQrTags(galleries, count.value, random, now);
      msg := m;
    }
  }
}
