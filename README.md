# ques-qr gallery core, modelled in Dafny

ques-qr is a Django application for QR-code keepsakes. A physical QR tag
leads to a gallery page at `/g/<uuid>/`, where visitors see the gallery's
photos and videos and can upload more, guarded by an optional upload PIN.
This project models the parts of the application that decide things:

- the gallery view (`gallery_view`):
  - the first-visit stamp;
  - the upload PIN check;
  - the empty-batch check;
  - the per-file size and type filter with its counters and messages;
  - the page it renders otherwise.
- what `MediaItem.save` derives before the row is written: MIME type, size,
  kind, and the stored path of the file.
- the gallery's public slug and the ordering of media.
- the admin helpers:
  - user-agent shortening;
  - file-size unit choice;
  - the media previews;
  - public paths;
  - the `generate_qr_tags` action.

Modules, one per source file, plus two shared ones:

- `Optional`: the option type.
- `Text`: Python's `str.strip` (with the full `str.isspace` set), `startswith`,
  `str(int)` and `int(str)`, and fixed-width lower-case hexadecimal.
- `Models` (main/models.py):
  - UUIDs and their canonical text;
  - `media_upload_path`;
  - the entities as datatypes;
  - `MediaItem` as a class whose `Save` updates its fields in place;
  - `Gallery` as a class;
  - the display ordering.
- `Views` (main/views.py, with the route of main/urls.py and the form of
  main/forms.py):
  - the upload loop as a method over a `Gallery` object, proved against the
    function `Batch`;
  - the view itself as a method that updates the gallery.
- `Admin` (main/admin.py):
  - the pure helpers as functions;
  - the QR tag table as a class whose `GenerateQrTags` loop appends tags.

External inputs are parameters:

- `mimetypes.guess_type` is `guess: string -> Option<string>`;
- `timezone.now()` is `now: int`;
- `uuid.uuid4()` is `random: nat -> Uuid`, where `random(k)` is the UUID drawn
  for the k-th tag of the table.

What the code does, and so what the model does:

- no per-gallery capacity cap is enforced;
- uploads never set `sort_order`, so it stays 0;
- there is no media-delete view;
- a POST whose form validates always ends in a redirect to the gallery page;
  a POST whose form does not validate renders the page with the bound form
  and writes no media item;
- an accepted upload can be stored with kind AUTO. The kind comes from a
  guess on the file name, not from the content type the view checked
  (`Views.KindIgnoresContentType`, `Views.AcceptedUploadCanStayAuto`).

The admin's `public_path` has no trailing slash, so it does not match the
route `g/<uuid:uuid>/` by itself (`Admin.GalleryPublicPath`). Whether a
visitor still reaches the page depends on the project's settings: Django's
`CommonMiddleware` with `APPEND_SLASH` redirects to the path with the slash
added. Settings and middleware are not part of this model.

## Model

| member | source | states |
|---|---|---|
| Text.Strip | main/views.py:57-58 | `strip()` result is empty exactly when the text is all whitespace; otherwise it neither starts nor ends with whitespace |
| Text.StripCharacterization | main/views.py:57-58 | whitespace around a text without surrounding whitespace is exactly what `strip()` removes |
| Text.StripSplits | main/views.py:57-58 | every text is its stripped form with whitespace around it |
| Text.StripIdempotent | main/views.py:64 | stripping the already-stripped form value again changes nothing |
| Text.IntToStringRoundTrip | main/admin.py:183 | the decimal text of an integer reads back as that integer |
| Text.IntTextRoundTrip | main/admin.py:183 | every canonical integer text (no leading zero, no "-0") is `str` of the integer it reads as, so `str` hits exactly those texts |
| Text.NatTextRoundTrip | main/admin.py:183 | a digit string without a leading zero is the decimal text of its own value |
| Text.HexFixedRoundTrip | main/models.py:14 | the fixed-width hex digits of a value below 16^w read back as that value |
| Text.HexValueRoundTrip | main/models.py:14 | every string of lower-case hex digits is the fixed-width hex text of its own value |
| Text.HexValueBound | main/models.py:14 | `w` hex digits denote a value below 16^w |
| Models.UuidString | main/models.py:60-62 | the text of a UUID has 36 characters, hyphens exactly at positions 8, 13, 18, 23 and lower-case hex digits elsewhere |
| Models.UuidRoundTrip | main/models.py:60-62 | parsing the canonical text of a UUID gives back that UUID |
| Models.UuidStringInjective | main/models.py:60-62 | different UUIDs have different texts |
| Models.ParseUuidCanonical | main/urls.py:8 | a text the `uuid` converter accepts is exactly `str` of the UUID it denotes |
| Models.UploadPathRoundTrip | main/models.py:7-9 | `uploads/<uuid>/<name>` determines both the gallery and the original file name |
| Models.UploadPathsAreDistinct | main/models.py:7-9 | files of different galleries or names get different upload paths |
| Models.CommitStoresUnderGallery | main/models.py:7-9 | saving commits a new file under `uploads/<gallery uuid>/<original name>`; an already stored or empty file is left as it is; the size is untouched |
| Models.SavedMime | main/models.py:124-126 | an empty MIME type of an item with a file is filled from the name guess ("" without a guess); a non-empty one is never replaced |
| Models.SavedSize | main/models.py:127-128 | when the file exposes a size the stored size becomes it (0 when falsy), otherwise it is unchanged |
| Models.InferKind | main/models.py:130-134 | only AUTO changes; it becomes IMAGE iff the MIME type starts "image/", VIDEO iff "video/", and otherwise stays AUTO |
| Models.MediaItem.ResolveKind | main/models.py:130-134 | the kind step of `save` sets the kind to `InferKind` of the old kind and the MIME type |
| Models.CreatedRowFields | main/views.py:89-95 | a row created from gallery, file, caption and uploader keeps those, has the field defaults, the MIME type guessed from the name, the file's size, IMAGE/VIDEO exactly for "image/"/"video/" MIME types, and the committed file |
| Models.MediaItem.Save | main/models.py:123-136 | the new fields are the derived MIME type, size and kind; the file is committed under its upload path; `uploaded_at` is stamped on insert only; every other field keeps its value |
| Models.SaveIsIdempotent | main/models.py:123-136 | saving the saved row again (its file now committed under the upload path) leaves the MIME type, size, kind and file as they are, when the name guess gives the same answer for the upload path as for the bare name |
| Models.MediaItem.constructor | main/models.py:97-104 | a new item has kind AUTO, `sort_order` 0, not featured, empty MIME type, size 0 and duration 0 |
| Models.Gallery.constructor | main/models.py:38-47 | a new gallery has a blank title and PINs, occasion OTHER, template "default", no `first_opened_at`, is active and holds no media |
| Models.Gallery.PublicUrlSlug | main/models.py:60-62 | the slug has 36 characters and parses back to the gallery's UUID |
| Models.SortForDisplay | main/models.py:115-116 | the media come out ascending by (`sort_order`, `uploaded_at`) and are a permutation of the input |
| Models.InsertForDisplay | main/models.py:115-116 | inserting into an ordered list keeps it ordered and adds exactly that row |
| Views.GalleryPathRoutesBack | main/urls.py:8 | the redirect target of the view routes back to the same gallery |
| Views.GalleryRouteExactly | main/urls.py:8 | a path routes to a gallery exactly when it is `/g/<str(uuid)>/` for that gallery |
| Views.CleanField | main/forms.py:5-6 | a missing optional field cleans to "" |
| Views.FormValid | main/views.py:55-56 | a form that leaves out both optional fields validates |
| Views.MaxMb | main/views.py:50 | the setting when present, 100 otherwise |
| Views.ByteLimit | main/views.py:51 | the limit in bytes is exactly `max_mb` mebibytes, positive exactly when `max_mb` is |
| Views.DefaultByteLimit | main/views.py:50-51 | without the setting the limit is 100 MB, i.e. 104857600 bytes |
| Views.PinRejectsExactly | main/views.py:57-59 | when a PIN is set, a submission is turned away exactly when its stripped text differs from the stripped PIN; it passes exactly when it is the stripped PIN with nothing but whitespace around it |
| Views.NeedPinIffCheckActive | main/views.py:57-59 | `need_pin` holds iff the PIN check would turn away an empty submission; a blank PIN never turns anything away |
| Views.MatchingPinPasses | main/views.py:57-59 | the right PIN, with any surrounding whitespace, always passes |
| Views.FileVerdict | main/views.py:76-87 | a file is kept iff its size (missing = 0) is within the limit and its type (missing = "") starts "image/" or "video/"; a file that fails both is counted as too large |
| Views.BatchCounts | main/views.py:71-96 | `created + errors` equals the number of files; one row per created file, one warning per rejected file |
| Views.BatchWritesAcceptedFiles | main/views.py:74-96 | the rows written are, in input order, one per accepted file, so a rejected file never stops later ones |
| Views.BatchWarnings | main/views.py:80-87 | the loop's warnings are, in input order, "too large" with the limit in MB for each oversized file and "type not allowed" with its content type for each other rejected file |
| Views.RejectWarningsSnoc | main/views.py:74-87 | one more file adds its own warning, if any, after the earlier ones |
| Views.AcceptedFilesExactly | main/views.py:74-96 | a file is among the accepted ones iff it is submitted and passes the filter |
| Views.NewRowContents | main/views.py:89-95 | each created row has the target gallery, the stripped batch caption, the uploader, `sort_order` 0 and a file stored under `uploads/<uuid>/<name>` |
| Views.KindIgnoresContentType | main/models.py:124-134 | the stored kind depends on the name guess only; the declared content type does not change it |
| Views.AcceptedUploadCanStayAuto | main/views.py:77-78 | a file accepted as "image/jpeg" whose name gives no guess is stored with kind AUTO |
| Views.WrongPinWritesNothing | main/views.py:57-61 | a rejected PIN writes nothing and reports only the PIN error, whatever the files |
| Views.EmptyBatchWritesNothing | main/views.py:63-68 | an empty batch that passes the PIN check writes nothing and reports "no files chosen" |
| Views.HandleUploadBounds | main/views.py:57-102 | a valid POST always leaves a message; rows are written only when the PIN passes and files were chosen, at most one per file |
| Views.UploadSucceedsIffSomeFileAccepted | main/views.py:98-99 | something is created exactly when some chosen file is within the limit and of an image or video type |
| Views.BatchSummary | main/views.py:71-102 | past both checks the rows are, in order, one per accepted file, and the messages are the warnings of the rejected files in input order followed by exactly one summary: the success count when some file was accepted, "nothing uploaded" when none was |
| Views.FirstOpenedIsStable | main/views.py:45-47 | once stamped, later visits never move `first_opened_at` |
| Views.FirstOpened | main/views.py:45-46 | an unset `first_opened_at` becomes now; a set one is kept |
| Views.StampFirstOpen | main/views.py:44-47 | the gallery's `first_opened_at` becomes `FirstOpened` of its old value and now; nothing else changes |
| Views.GalleryPage | main/views.py:108-116 | renders the gallery's template with its own media, all of the gallery and none other, as a permutation sorted by (`sort_order`, `uploaded_at`), with `max_mb`, the form and `need_pin` true exactly when the PIN is not blank |
| Views.UploadFiles | main/views.py:71-96 | the loop appends exactly the rows of `Batch` to the gallery and returns its counters and warnings |
| Views.ProcessUpload | main/views.py:56-102 | a valid POST changes the gallery's media and messages exactly as `HandleUpload` says |
| Views.GalleryView | main/views.py:44-116 | stamps the first visit once; a valid POST uploads and redirects to the page; otherwise the page is rendered with the ordered media, `max_mb` and `need_pin`, and nothing is written |
| Views.ServeGallery | main/views.py:41-116 | an unknown or malformed gallery path is a 404 that changes nothing; otherwise only the addressed gallery's `first_opened_at` and media may change: the first visit is stamped, a valid POST appends the rows of `HandleUpload`, returns its messages and redirects to the page, and any other request writes nothing and renders `GalleryPage` |
| Admin.UaShort | main/admin.py:195-198 | "-" for an empty user agent; unchanged up to 80 characters; otherwise the first 80 characters and "…", never longer than 81 |
| Admin.UaShortIsStable | main/admin.py:196-198 | shortening a shortened user agent changes nothing, for every visit log |
| Admin.FileSizeFmt | main/admin.py:177-183 | MB iff size ≥ 1024², KB iff 1024 ≤ size < 1024², otherwise `str(size)` followed by " B": canonical integer text (no leading zero, no "-0") that reads back as the size |
| Admin.Preview | main/admin.py:34-43 | "-" iff there is no item or no file; an image iff the MIME type starts "image/"; the video placeholder iff it starts "video/" but not "image/"; "—" otherwise |
| Admin.InlinePreview | main/admin.py:34-43 | "-" exactly without an item or file; an image exactly for an "image/" MIME type, showing the file at most 120 px high |
| Admin.AdminPreview | main/admin.py:166-174 | "-" exactly without an item or file; an image exactly for an "image/" MIME type, showing the file at most 200 px high |
| Admin.PreviewsDifferOnlyInHeight | main/admin.py:166-174 | the inline and the item-page previews agree except for the image height limit, 120 and 200 |
| Admin.PreviewFollowsSavedKind | main/admin.py:38-43 | for an uploaded item the preview is an image iff its kind is IMAGE, a video iff VIDEO, and "—" iff AUTO |
| Admin.GalleryPublicPath | main/admin.py:96-99 | "/g/" followed by the slug; with a slash appended it routes to the gallery, without one it matches no route |
| Admin.TagPublicPath | main/admin.py:150-153 | the path of the tag's gallery, which routes back to it once a slash is appended |
| Admin.TagPathIsGalleryPath | main/admin.py:150-153 | a tag's path is its gallery's public path; tags of different galleries have different paths |
| Admin.TokenHexInjective | main/models.py:12-14 | different UUIDs give different 32-digit tokens |
| Admin.TokenHex | main/models.py:12-14 | the token is 32 lower-case hex digits |
| Admin.ActionCount | main/admin.py:48-55 | a count is accepted iff the submitted text reads as an integer between 1 and 200 |
| Admin.ActionCountAcceptsRange | main/admin.py:49-52 | every count from 1 to 200 typed as decimal text is accepted as itself |
| Admin.ActionCountRefusesOutOfRange | main/admin.py:49-52 | a count outside 1..200 is refused |
| Admin.CountAsWritten | main/admin.py:118 | the count expression as written: 2 without an action form, the cleaned count or 2 on a bound form, and an AttributeError on the form class |
| Admin.GenerateQrTagsAsWrittenRaises | main/admin.py:81 | on `GalleryAdmin`, whose `action_form` is the form class, the lookup always raises |
| Admin.NewTagsLength | main/admin.py:119-123 | `total_created` is `count` times the number of galleries |
| Admin.TagBatch | main/admin.py:121 | one gallery's batch has exactly `count` tags |
| Admin.NewTagsForSnoc | main/admin.py:120-122 | selecting one more gallery adds `count` tags for it and none for any other gallery |
| Admin.NewTagsShape | main/admin.py:121 | every new tag belongs to a selected gallery, has a blank serial and note, is created now, and takes its token from the next UUID drawn |
| Admin.NewTagsPerGallery | main/admin.py:120-122 | each gallery gets `count` tags for each time it is selected |
| Admin.ExactlyCountPerGallery | main/admin.py:120-122 | for a queryset without repeats, every selected gallery gets exactly `count` new tags and no other gallery gets any |
| Admin.NewTokensDistinct | main/admin.py:121 | distinct UUID draws give the new tags distinct tokens |
| Admin.QrTagTable.GenerateQrTags | main/admin.py:117-128 | the loop appends exactly the specified new tags, returns `count` times the number of galleries, and reports that total with the number of galleries |
| Admin.QrTagTable.RunGenerateQrTags | main/admin.py:48-55 | with nothing selected or an invalid count nothing is created and Django's warning is given; otherwise each selected gallery gets the requested tags |

## Left out

- QR rendering (`qrcode_image`, `qrcode_download`, `qr_preview`): PNG and base64 encoding in a foreign library.
- HTTP responses, templates and the messages framework are reduced to datatypes. Message texts are tags, not the Russian strings.
- The `print` calls, the ORM, querysets, `prefetch_related`, `bulk_create` and cascades: the stores are in-memory sequences.
- Storage renaming (`get_valid_name`, `get_available_name`): the stored name is the upload path itself.
- The storage URL of a file: `Admin.Preview` shows the stored file name where the source shows `obj.file.url`.
- HTML escaping by `format_html` is not modelled.
- Admin.FileSizeFmt: does not model the one-decimal float text of the MB and KB cases, because it is floating-point formatting.
- Admin.ActionCount: reads the count with `ParseInt` after stripping. It does not model Django's acceptance of a trailing ".0", a leading "+", underscores or non-ASCII digits, which are corner cases of Python's `int()`.
- Models.SaveIsIdempotent: holds only when the name guess answers the same for `uploads/<uuid>/<name>` as for `<name>`. The guess is a parameter here, so the model cannot derive that from `mimetypes.guess_type` reading only the extension of the last path component.
- Views.MaxMb: the setting is an integer. A float `GALLERY_MAX_UPLOAD_MB` such as 1.5 makes `max_bytes` a float and is not modelled.
- Admin.QrTagTable.RunGenerateQrTags: models Django's selection and form checks only as the two warnings they give.
- Randomness and uniqueness of UUIDs and tokens: database constraints enforce uniqueness. Here the draws are a parameter.
- Concurrent uploads: nothing in the code coordinates them.
- One `now` per request: every row of a batch gets the same `uploaded_at`.
- `view_pin` and `is_active` are stored but never checked by the view, so they have no effect in the model.
- The `__str__` methods, `media_count`, `qrtag_count`, `public_path_help` and the admin list and fieldset declarations.
- `MediaRow.fileSize` is a non-null integer, as the `BigIntegerField` column is. So the `or 0` of `file_size_fmt` has no missing case to cover.

## Findings

| source | as written | input that shows it | evidently intended | confidence | as-written member | corrected member |
|---|---|---|---|---|---|---|
| main/admin.py:118 | reads `self.action_form.cleaned_data`, but `ModelAdmin.action_form` is the form class (admin.py:81); the bound form is local to Django's `response_action` | any run of the action, e.g. count "5" on one gallery: AttributeError, no tags | use the validated count (1..200) of the bound action form | high (not executed) | Admin.CountAsWritten | Admin.ActionCount |
