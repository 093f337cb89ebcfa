/**
 * Media attachments: the file name a photo or document is saved under,
 * the extension derived from a MIME type, where a message's attachment
 * goes, and the download loop over a list of messages that stops when a
 * stop is requested.
 */
module Media {
  import opened Wrappers
  import opened Text
  import opened Json
  import opened Paths

  // ---------------------------------------------------------------------------
  // Telegram media objects
  // ---------------------------------------------------------------------------

  /** A document attribute: only the file-name attribute matters here. */
  datatype Attribute = FileNameAttribute(fileName: string) | OtherAttribute

  datatype Document = Document(id: int, mimeType: Option<string>, attributes: seq<Attribute>)

  datatype Photo = Photo(id: int)

  /**
   * A message's `media`. The `photo` of a photo medium and the `document`
   * of a document medium are `None` when they hold another kind of object
   * (an empty photo or document).
   */
  datatype Medium =
    | MediaPhoto(photo: Option<Photo>)
    | MediaDocument(document: Option<Document>)
    | OtherMedium

  // ---------------------------------------------------------------------------
  // Extensions
  // ---------------------------------------------------------------------------

  /** The MIME types the downloader knows, with the extension each is saved under. */
  const MimeTable: seq<(string, string)> := [
    ("image/jpeg", ".jpg"),
    ("image/png", ".png"),
    ("image/gif", ".gif"),
    ("image/webp", ".webp"),
    ("video/mp4", ".mp4"),
    ("video/webm", ".webm"),
    ("video/quicktime", ".mov"),
    ("audio/mpeg", ".mp3"),
    ("audio/ogg", ".ogg"),
    ("audio/mp4", ".m4a"),
    ("audio/x-wav", ".wav"),
    ("application/pdf", ".pdf"),
    ("application/zip", ".zip"),
    ("application/x-rar-compressed", ".rar"),
    ("application/x-7z-compressed", ".7z"),
    ("text/plain", ".txt"),
    ("application/json", ".json"),
    ("application/xml", ".xml"),
    ("image/tiff", ".tiff"),
    ("image/bmp", ".bmp")
  ]

  /** The entry of `table` for `key`, the first one if several. */
  function Lookup(table: seq<(string, string)>, key: string): (r: Option<string>)
    ensures r.None? <==> forall i :: 0 <= i < |table| ==> table[i].0 != key
    ensures r.Some? ==> exists i :: 0 <= i < |table| && table[i] == (key, r.value)
  {
    if |table| == 0 then None
    else if table[0].0 == key then Some(table[0].1)
    else
      var r := Lookup(table[1..], key);
      assert forall i :: 0 <= i < |table[1..]| ==> table[1..][i] == table[i + 1];
      r
  }

  /** `_get_extension_from_mime`: the table's extension, `.bin` for no type, an empty one, or one not in the table. */
  function ExtensionFromMime(mimeType: Option<string>): (r: string)
    ensures mimeType.None? || mimeType.value == "" ==> r == ".bin"
  {
    ExtensionIn(MimeTable, mimeType)
  }

  /** The extension `table` gives a MIME type, `.bin` when it gives none. */
  function ExtensionIn(table: seq<(string, string)>, mimeType: Option<string>): string
  {
    if mimeType.None? || mimeType.value == "" then ".bin"
    else Lookup(table, mimeType.value).GetOr(".bin")
  }

  /** No MIME type is listed twice. */
  predicate KeysDistinct(table: seq<(string, string)>)
  {
    forall i, j :: 0 <= i < j < |table| ==> table[i].0 != table[j].0
  }

  /** No extension is listed twice. */
  predicate ValuesDistinct(table: seq<(string, string)>)
  {
    forall i, j :: 0 <= i < j < |table| ==> table[i].1 != table[j].1
  }

  /** The table read backwards: from extension to MIME type. */
  function Swapped(table: seq<(string, string)>): (r: seq<(string, string)>)
    ensures |r| == |table| && forall i :: 0 <= i < |table| ==> r[i] == (table[i].1, table[i].0)
  {
    seq(|table|, i requires 0 <= i < |table| => (table[i].1, table[i].0))
  }

  /** The rows from `lo` below `hi` differ in MIME type and in extension from every later row. */
  predicate RowsDistinct(table: seq<(string, string)>, lo: nat, hi: nat)
  {
    forall i, j :: lo <= i < hi && i < j < |table| ==> table[i].0 != table[j].0 && table[i].1 != table[j].1
  }

  lemma Rows0() ensures RowsDistinct(MimeTable, 0, 1) {}
  lemma Rows1() ensures RowsDistinct(MimeTable, 1, 2) {}
  lemma Rows2() ensures RowsDistinct(MimeTable, 2, 4) {}
  lemma Rows4() ensures RowsDistinct(MimeTable, 4, 7) {}
  lemma Rows7() ensures RowsDistinct(MimeTable, 7, 11) {}
  lemma Rows11() ensures RowsDistinct(MimeTable, 11, 20) {}

  lemma AllRowsDistinct()
    ensures RowsDistinct(MimeTable, 0, 20)
  {
    Rows0(); Rows1(); Rows2(); Rows4(); Rows7(); Rows11();
  }

  /** The 20 MIME types of the table are distinct. */
  lemma MimeTypesDistinct()
    ensures |MimeTable| == 20 && KeysDistinct(MimeTable)
  {
    AllRowsDistinct();
  }

  /** The 20 extensions of the table are distinct, and none is `.bin`. */
  lemma ExtensionsDistinct()
    ensures ValuesDistinct(MimeTable)
    ensures forall i :: 0 <= i < |MimeTable| ==> MimeTable[i].1 != ".bin"
  {
    AllRowsDistinct();
  }

  /** In a table without repeated keys, a listed key finds its own row. */
  lemma LookupRow(table: seq<(string, string)>, i: nat)
    requires KeysDistinct(table) && i < |table|
    ensures Lookup(table, table[i].0) == Some(table[i].1)
  {
  }

  /** Which MIME type an extension stands for, reading the table backwards. */
  function MimeFromExtension(ext: string): Option<string>
  {
    Lookup(Swapped(MimeTable), ext)
  }

  /** Reading a table with distinct keys and distinct values backwards undoes reading it forwards. */
  lemma TableRoundTrip(table: seq<(string, string)>, mimeType: Option<string>)
    requires KeysDistinct(table) && ValuesDistinct(table)
    requires forall i :: 0 <= i < |table| ==> table[i].1 != ".bin" && table[i].0 != ""
    ensures Lookup(Swapped(table), ExtensionIn(table, mimeType)) ==
      if mimeType.Some? && Lookup(table, mimeType.value).Some? then mimeType else None
  {
    if mimeType.Some? && Lookup(table, mimeType.value).Some? {
      var key := mimeType.value;
      var i :| 0 <= i < |table| && table[i] == (key, Lookup(table, key).value);
      assert ExtensionIn(table, mimeType) == table[i].1;
      SwappedKeysDistinct(table);
      LookupRow(Swapped(table), i);
    } else {
      assert ExtensionIn(table, mimeType) == ".bin";
      BinUnlisted(table);
    }
  }

  /** Distinct extensions make the swapped table's keys distinct. */
  lemma SwappedKeysDistinct(table: seq<(string, string)>)
    requires ValuesDistinct(table)
    ensures KeysDistinct(Swapped(table))
  {
  }

  /** `.bin` is not an extension of the table, so reading it backwards finds nothing. */
  lemma BinUnlisted(table: seq<(string, string)>)
    requires forall i :: 0 <= i < |table| ==> table[i].1 != ".bin"
    ensures Lookup(Swapped(table), ".bin").None?
  {
  }

  /** No row of the table has an empty MIME type. */
  lemma MimeTypesNonEmpty()
    ensures forall i :: 0 <= i < |MimeTable| ==> MimeTable[i].0 != ""
  {
  }

  /**
   * The extension determines the type: a listed MIME type is recovered
   * from its extension, and `.bin` (every other type) recovers nothing.
   */
  lemma ExtensionRoundTrip(mimeType: Option<string>)
    ensures MimeFromExtension(ExtensionFromMime(mimeType)) ==
      if mimeType.Some? && Lookup(MimeTable, mimeType.value).Some? then mimeType else None
  {
    MimeTypesDistinct();
    ExtensionsDistinct();
    MimeTypesNonEmpty();
    TableRoundTrip(MimeTable, mimeType);
  }

  /** Every type the table lists gets its own extension; every other type gets `.bin`. */
  lemma ListedExtension(mimeType: string, i: nat)
    requires i < |MimeTable| && MimeTable[i].0 == mimeType
    ensures ExtensionFromMime(Some(mimeType)) == MimeTable[i].1
  {
    MimeTypesDistinct();
    MimeTypesNonEmpty();
    RowExtension(MimeTable, i);
  }

  lemma RowExtension(table: seq<(string, string)>, i: nat)
    requires KeysDistinct(table) && i < |table| && table[i].0 != ""
    ensures ExtensionIn(table, Some(table[i].0)) == table[i].1
  {
    LookupRow(table, i);
  }

  /** Every extension in the table is a dot followed by a word without a dot. */
  lemma ExtensionsAreDotted()
    ensures forall i :: 0 <= i < |MimeTable| ==>
      |MimeTable[i].1| >= 2 && MimeTable[i].1[0] == '.' && '.' !in MimeTable[i].1[1..]
  {
  }

  /** The extension given to any MIME type is a dot followed by a word without a dot. */
  lemma ExtensionDotted(mimeType: Option<string>)
    ensures var ext := ExtensionFromMime(mimeType);
      |ext| >= 2 && ext[0] == '.' && '.' !in ext[1..]
  {
    if mimeType.Some? && mimeType.value != "" && Lookup(MimeTable, mimeType.value).Some? {
      var i :| 0 <= i < |MimeTable| && MimeTable[i] == (mimeType.value, Lookup(MimeTable, mimeType.value).value);
      ExtensionsAreDotted();
    } else {
      assert ExtensionFromMime(mimeType) == ".bin";
      assert ".bin"[1..] == "bin";
    }
  }

  // ---------------------------------------------------------------------------
  // File names
  // ---------------------------------------------------------------------------

  /** `i` is the position of the first file-name attribute. */
  predicate FirstFileName(attributes: seq<Attribute>, i: int)
  {
    0 <= i < |attributes| && attributes[i].FileNameAttribute? &&
    forall j :: 0 <= j < i ==> !attributes[j].FileNameAttribute?
  }

  /**
   * `_get_original_filename`: the `file_name` of the first file-name
   * attribute of the document, if it has one.
   */
  function OriginalFilename(attributes: seq<Attribute>): (r: Option<string>)
    ensures r.None? <==> forall i :: 0 <= i < |attributes| ==> !attributes[i].FileNameAttribute?
    ensures r.Some? ==> exists i :: FirstFileName(attributes, i) && attributes[i].fileName == r.value
  {
    if |attributes| == 0 then None
    else if attributes[0].FileNameAttribute? then Some(attributes[0].fileName)
    else
      var r := OriginalFilename(attributes[1..]);
      assert forall i :: 0 <= i < |attributes[1..]| ==> attributes[1..][i] == attributes[i + 1];
      assert r.Some? ==> exists i :: FirstFileName(attributes, i) && attributes[i].fileName == r.value by {
        if r.Some? {
          var i :| FirstFileName(attributes[1..], i) && attributes[1..][i].fileName == r.value;
          assert FirstFileName(attributes, i + 1);
        }
      }
      r
  }

  /** The name a medium is stored under from its id and extension, as `get_filename` formats it. */
  function IdName(id: int, ext: string): string
  {
    IntToString(id) + ext
  }

  /**
   * `get_filename`: a photo is `<id>.jpg`; a document keeps its original
   * file name when asked to and one is set (and not empty), otherwise it
   * is `<id><extension>`; any other medium, or a photo or document slot
   * holding another kind of object, has no name.
   */
  function GetFilename(media: Medium, useOriginalNames: bool): (r: Option<string>)
    ensures r.Some? <==> (media.MediaPhoto? && media.photo.Some?) || (media.MediaDocument? && media.document.Some?)
    ensures r.Some? ==> r.value != ""
    ensures media.MediaDocument? && media.document.Some? && r.Some? && r.value != IdName(media.document.value.id, ExtensionFromMime(media.document.value.mimeType)) ==>
      useOriginalNames && OriginalFilename(media.document.value.attributes) == r
  {
    match media
    case MediaPhoto(photo) =>
      if photo.Some? then Some(IdName(photo.value.id, ".jpg")) else None
    case MediaDocument(document) =>
      if document.None? then None
      else
        var doc := document.value;
        var original := if useOriginalNames then OriginalFilename(doc.attributes) else None;
        if original.Some? && original.value != "" then original
        else Some(IdName(doc.id, ExtensionFromMime(doc.mimeType)))
    case OtherMedium => None
  }

  /**
   * A generated name reads back: its suffix is the extension and its stem
   * is the medium's id.
   */
  lemma IdNameReadBack(id: int, ext: string)
    requires |ext| >= 2 && ext[0] == '.' && '.' !in ext[1..]
    ensures Suffix(IdName(id, ext)) == ext
    ensures ParseInt(Stem(IdName(id, ext))) == Some(id)
  {
    SplitsAtExtension(IntToString(id), ext);
    ParseIntToString(id);
  }

  /** Photos are named after their id: the name ends in `.jpg` and its stem is the id. */
  lemma PhotoNameReadBack(photo: Photo, useOriginalNames: bool)
    ensures var name := GetFilename(MediaPhoto(Some(photo)), useOriginalNames).value;
      Suffix(name) == ".jpg" && ParseInt(Stem(name)) == Some(photo.id)
  {
    assert ".jpg"[1..] == "jpg";
    IdNameReadBack(photo.id, ".jpg");
  }

  /**
   * A document without a usable original name is named after its id: the
   * suffix is the extension of its MIME type and the stem is the id.
   */
  lemma DocumentNameReadBack(doc: Document, useOriginalNames: bool)
    requires !useOriginalNames || OriginalFilename(doc.attributes).GetOr("") == ""
    ensures var name := GetFilename(MediaDocument(Some(doc)), useOriginalNames).value;
      Suffix(name) == ExtensionFromMime(doc.mimeType) && ParseInt(Stem(name)) == Some(doc.id)
  {
    ExtensionDotted(doc.mimeType);
    IdNameReadBack(doc.id, ExtensionFromMime(doc.mimeType));
  }

  // ---------------------------------------------------------------------------
  // Downloading
  // ---------------------------------------------------------------------------

  /**
   * A message handed to the media downloader: a Telegram message, or a
   * message dict. A dict's `media` is never a Telegram media object, so a
   * dict has no file name and nothing is downloaded for it.
   */
  datatype MediaMessage =
    | TelegramMessage(id: int, media: Option<Medium>)
    | DictMessage(fields: Fields)

  /** `str(message.id or None)`: the id's digits, or `"None"` for id 0. Never empty. */
  function MessageIdText(id: int): (r: string)
    ensures r != ""
    ensures id != 0 ==> ParseInt(r) == Some(id)
  {
    if id != 0 then ParseIntToString(id); IntToString(id) else "None"
  }

  /**
   * Where `download_message_media` saves a message's attachment:
   * `attachments_dir/<message id>/<filename>`; `None` when the message has
   * no medium or the medium no file name.
   */
  function Target(message: MediaMessage, attachments: Path, useOriginalNames: bool): (r: Option<Path>)
    ensures r.Some? ==> message.TelegramMessage? && message.media.Some?
    ensures r.Some? ==> r.value.dir == attachments.dir + [attachments.name, MessageIdText(message.id)]
    ensures r.Some? ==> Some(r.value.name) == GetFilename(message.media.value, useOriginalNames)
  {
    match message
    case DictMessage(_) => None
    case TelegramMessage(id, media) =>
      if media.None? then None
      else
        var name := GetFilename(media.value, useOriginalNames);
        if name.None? then None
        else Some(Path(attachments.dir + [attachments.name, MessageIdText(id)], name.value))
  }

  /** The files on disk and the downloads requested from Telegram so far. */
  datatype Disk = Disk(files: set<Path>, requests: seq<Path>)

  /**
   * One message: nothing when it has no target or the target exists;
   * otherwise the download is requested, and the file appears when
   * `fetched` says the download succeeded.
   */
  function MediaStep(d: Disk, target: Option<Path>, fetched: bool): (r: Disk)
    ensures target.None? || target.value in d.files ==> r == d
    ensures target.Some? && target.value !in d.files ==> r.requests == d.requests + [target.value]
    ensures r.files == d.files || (fetched && target.Some? && r.files == d.files + {target.value})
  {
    if target.None? || target.value in d.files then d
    else Disk(if fetched then d.files + {target.value} else d.files, d.requests + [target.value])
  }

  /** The steps over a sequence of targets, `fetched[i]` telling whether the download of target `i` succeeds. */
  function Steps(d: Disk, ts: seq<Option<Path>>, fetched: seq<bool>, n: nat): Disk
    requires n <= |ts|
  {
    if n == 0 then d else MediaStep(Steps(d, ts, fetched, n - 1), ts[n - 1], n - 1 < |fetched| && fetched[n - 1])
  }

  /** Each message's target, in order. */
  function Targets(messages: seq<MediaMessage>, attachments: Path, useOriginalNames: bool): (ts: seq<Option<Path>>)
    ensures |ts| == |messages|
  {
    seq(|messages|, i requires 0 <= i < |messages| => Target(messages[i], attachments, useOriginalNames))
  }

  lemma TargetAt(messages: seq<MediaMessage>, attachments: Path, useOriginalNames: bool, i: nat)
    requires i < |messages|
    ensures Targets(messages, attachments, useOriginalNames)[i] == Target(messages[i], attachments, useOriginalNames)
  {
  }

  lemma StepsNext(d: Disk, ts: seq<Option<Path>>, fetched: seq<bool>, i: nat)
    requires i < |ts|
    ensures Steps(d, ts, fetched, i + 1) == MediaStep(Steps(d, ts, fetched, i), ts[i], i < |fetched| && fetched[i])
  {
  }

  /** The disk after the first `n` messages, `fetched[i]` telling whether message `i`'s download succeeds. */
  function MediaSteps(d: Disk, messages: seq<MediaMessage>, attachments: Path, useOriginalNames: bool,
                      fetched: seq<bool>, n: nat): Disk
    requires n <= |messages|
  {
    Steps(d, Targets(messages, attachments, useOriginalNames), fetched, n)
  }

  lemma MediaStepsNext(d: Disk, messages: seq<MediaMessage>, attachments: Path, useOriginalNames: bool,
                       fetched: seq<bool>, i: nat)
    requires i < |messages|
    ensures MediaSteps(d, messages, attachments, useOriginalNames, fetched, i + 1) ==
      MediaStep(MediaSteps(d, messages, attachments, useOriginalNames, fetched, i),
                Target(messages[i], attachments, useOriginalNames), i < |fetched| && fetched[i])
  {
    StepsNext(d, Targets(messages, attachments, useOriginalNames), fetched, i);
    TargetAt(messages, attachments, useOriginalNames, i);
  }

  /** Whether every one of the first `n` downloads succeeds. */
  predicate AllFetched(fetched: seq<bool>, n: nat)
  {
    n <= |fetched| && forall i :: 0 <= i < n ==> fetched[i]
  }

  /** `r` is `d` with files and requests added, none of the requests to a file of `d`. */
  predicate Extends(d: Disk, r: Disk)
  {
    && d.files <= r.files
    && |d.requests| <= |r.requests| && r.requests[..|d.requests|] == d.requests
    && forall k :: |d.requests| <= k < |r.requests| ==> r.requests[k] !in d.files
  }

  /** One step adds at most one request, to a file that did not exist. */
  lemma StepExtends(d: Disk, target: Option<Path>, fetched: bool)
    ensures Extends(d, MediaStep(d, target, fetched))
  {
    var r := MediaStep(d, target, fetched);
    if !(target.None? || target.value in d.files) {
      assert r.requests[..|d.requests|] == d.requests;
    }
  }

  lemma ExtendsTrans(a: Disk, b: Disk, c: Disk)
    requires Extends(a, b) && Extends(b, c)
    ensures Extends(a, c)
  {
    assert c.requests[..|a.requests|] == c.requests[..|b.requests|][..|a.requests|];
    forall k | |a.requests| <= k < |c.requests|
      ensures c.requests[k] !in a.files
    {
      if k < |b.requests| {
        assert c.requests[k] == c.requests[..|b.requests|][k];
      }
    }
  }

  /**
   * Downloads only add: files stay, earlier requests stay, and no request
   * of the run targets a file that existed before it.
   */
  lemma {:induction false} NeverOverwrites(d: Disk, messages: seq<MediaMessage>, attachments: Path,
                                           useOriginalNames: bool, fetched: seq<bool>, n: nat)
    requires n <= |messages|
    ensures Extends(d, MediaSteps(d, messages, attachments, useOriginalNames, fetched, n))
  {
    StepsExtend(d, Targets(messages, attachments, useOriginalNames), fetched, n);
  }

  /** The steps over any targets only add, and never request a file that existed before them. */
  lemma {:induction false} StepsExtend(d: Disk, ts: seq<Option<Path>>, fetched: seq<bool>, n: nat)
    requires n <= |ts|
    ensures Extends(d, Steps(d, ts, fetched, n))
  {
    if n > 0 {
      var before := Steps(d, ts, fetched, n - 1);
      StepsExtend(d, ts, fetched, n - 1);
      StepExtends(before, ts[n - 1], n - 1 < |fetched| && fetched[n - 1]);
      ExtendsTrans(d, before, Steps(d, ts, fetched, n));
    }
  }

  /** Every request the steps add is one of the targets. */
  lemma {:induction false} StepsRequests(d: Disk, ts: seq<Option<Path>>, fetched: seq<bool>, n: nat)
    requires n <= |ts|
    ensures var r := Steps(d, ts, fetched, n);
      |d.requests| <= |r.requests| &&
      forall k :: |d.requests| <= k < |r.requests| ==> exists i :: 0 <= i < n && ts[i] == Some(r.requests[k])
  {
    if n > 0 {
      var before := Steps(d, ts, fetched, n - 1);
      var r := Steps(d, ts, fetched, n);
      StepsRequests(d, ts, fetched, n - 1);
      if ts[n - 1].Some? && ts[n - 1].value !in before.files {
        assert r.requests == before.requests + [ts[n - 1].value];
        forall k | |d.requests| <= k < |r.requests|
          ensures exists i :: 0 <= i < n && ts[i] == Some(r.requests[k])
        {
          if k < |before.requests| {
            assert r.requests[k] == before.requests[k];
            var i :| 0 <= i < n - 1 && ts[i] == Some(before.requests[k]);
          } else {
            assert r.requests[k] == ts[n - 1].value;
          }
        }
      }
    }
  }

  /** Every request of the run is the target of one of its messages. */
  lemma RequestsAreTargets(d: Disk, messages: seq<MediaMessage>, attachments: Path,
                           useOriginalNames: bool, fetched: seq<bool>, n: nat)
    requires n <= |messages|
    ensures var r := MediaSteps(d, messages, attachments, useOriginalNames, fetched, n);
      |d.requests| <= |r.requests| &&
      forall k :: |d.requests| <= k < |r.requests| ==>
        exists i :: 0 <= i < n && Target(messages[i], attachments, useOriginalNames) == Some(r.requests[k])
  {
    var ts := Targets(messages, attachments, useOriginalNames);
    var r := MediaSteps(d, messages, attachments, useOriginalNames, fetched, n);
    StepsRequests(d, ts, fetched, n);
    forall k | |d.requests| <= k < |r.requests|
      ensures exists i :: 0 <= i < n && Target(messages[i], attachments, useOriginalNames) == Some(r.requests[k])
    {
      var i :| 0 <= i < n && ts[i] == Some(r.requests[k]);
      TargetAt(messages, attachments, useOriginalNames, i);
    }
  }

  /** Every request `r` adds to `d` is for a file that exists in `r`, and no two of them are for the same file. */
  predicate FetchedDistinct(d: Disk, r: Disk)
  {
    |d.requests| <= |r.requests|
    && (forall k :: |d.requests| <= k < |r.requests| ==> r.requests[k] in r.files)
    && (forall k, l :: |d.requests| <= k < l < |r.requests| ==> r.requests[k] != r.requests[l])
  }

  /** A successful download keeps the requests distinct and fetched. */
  lemma FetchedStep(d: Disk, b: Disk, target: Option<Path>)
    requires FetchedDistinct(d, b)
    ensures FetchedDistinct(d, MediaStep(b, target, true))
  {
    var r := MediaStep(b, target, true);
    if target.Some? && target.value !in b.files {
      assert r.files == b.files + {target.value} && r.requests == b.requests + [target.value];
      forall k | |d.requests| <= k < |r.requests|
        ensures r.requests[k] in r.files
      {
        if k < |b.requests| {
          assert r.requests[k] == b.requests[k];
        }
      }
      forall k, l | |d.requests| <= k < l < |r.requests|
        ensures r.requests[k] != r.requests[l]
      {
        assert r.requests[k] == b.requests[k];
        if l < |b.requests| {
          assert r.requests[l] == b.requests[l];
        } else {
          assert b.requests[k] in b.files;
        }
      }
    }
  }

  /** When every download succeeds, every requested file exists and no file is requested twice. */
  lemma {:induction false} FetchedOnce(d: Disk, messages: seq<MediaMessage>, attachments: Path,
                                       useOriginalNames: bool, fetched: seq<bool>, n: nat)
    requires n <= |messages| && AllFetched(fetched, n)
    ensures FetchedDistinct(d, MediaSteps(d, messages, attachments, useOriginalNames, fetched, n))
  {
    StepsFetched(d, Targets(messages, attachments, useOriginalNames), fetched, n);
  }

  /** When every download succeeds, the steps over any targets fetch each request once. */
  lemma {:induction false} StepsFetched(d: Disk, ts: seq<Option<Path>>, fetched: seq<bool>, n: nat)
    requires n <= |ts| && AllFetched(fetched, n)
    ensures FetchedDistinct(d, Steps(d, ts, fetched, n))
  {
    if n > 0 {
      StepsFetched(d, ts, fetched, n - 1);
      assert fetched[n - 1];
      FetchedStep(d, Steps(d, ts, fetched, n - 1), ts[n - 1]);
    }
  }

  /** The first index where a stop arrives, or `n` when none does before it. */
  function FirstStop(interrupts: seq<bool>, n: nat): (r: nat)
    ensures r <= n
    ensures forall i :: 0 <= i < r ==> !(i < |interrupts| && interrupts[i])
    ensures r < n ==> r < |interrupts| && interrupts[r]
  {
    if n == 0 then 0
    else
      var k := FirstStop(interrupts, n - 1);
      if k < n - 1 then k
      else if n - 1 < |interrupts| && interrupts[n - 1] then n - 1
      else n
  }

  /** With no stop before `i`, the first stop is at `i` when one arrives there or `i` is the end. */
  lemma StopIsFirst(interrupts: seq<bool>, n: nat, i: nat)
    requires i <= n && forall j :: 0 <= j < i ==> !(j < |interrupts| && interrupts[j])
    requires i == n || (i < |interrupts| && interrupts[i])
    ensures FirstStop(interrupts, n) == i
  {
  }

  /** The media side of the downloader: the stop flag, the files on disk and the downloads requested. */
  class MediaDownloader {
    var stopRequested: bool
    var files: set<Path>
    var requests: seq<Path>

    constructor (existing: set<Path>)
      ensures !stopRequested && files == existing && requests == []
    {
      stopRequested := false;
      files := existing;
      requests := [];
    }

    function State(): Disk
      reads this
    {
      Disk(files, requests)
    }

    /**
     * `download_message_media`: requests the download of the message's
     * attachment to its target unless it has none or the target already
     * exists; `fetched` is whether Telegram delivers the file.
     */
    method DownloadMessageMedia(message: MediaMessage, attachments: Path, useOriginalNames: bool, fetched: bool)
      modifies this
      ensures stopRequested == old(stopRequested)
      ensures State() == MediaStep(old(State()), Target(message, attachments, useOriginalNames), fetched)
    {
      var target := Target(message, attachments, useOriginalNames);
      if target.None? {
        return;
      }
      if target.value in files {
        return;
      }
      requests := requests + [target.value];
      if fetched {
        files := files + {target.value};
      }
    }

    /**
     * `download_all_media`: downloads each message's attachment in turn,
     * checking the stop flag before each message. `interrupts[i]` says
     * that a stop was requested while message `i - 1` was downloading
     * (before the first message for `i = 0`). Returns the messages handled.
     */
    method DownloadAllMedia(messages: seq<MediaMessage>, attachments: Path, useOriginalNames: bool,
                            fetched: seq<bool>, interrupts: seq<bool>) returns (downloaded: nat)
      modifies this
      ensures downloaded == if old(stopRequested) then 0 else FirstStop(interrupts, |messages|)
      ensures stopRequested == (old(stopRequested) || downloaded < |messages|)
      ensures State() == MediaSteps(old(State()), messages, attachments, useOriginalNames, fetched, downloaded)
    {
      downloaded := 0;
      if stopRequested {
        return;
      }
      ghost var start := State();
      var i := 0;
      while i < |messages|
        invariant 0 <= i <= |messages| && downloaded == i && !stopRequested
        invariant forall j :: 0 <= j < i ==> !(j < |interrupts| && interrupts[j])
        invariant State() == MediaSteps(start, messages, attachments, useOriginalNames, fetched, i)
      {
        if i < |interrupts| && interrupts[i] {
          stopRequested := true;
          StopIsFirst(interrupts, |messages|, i);
          return;
        }
        DownloadMessageMedia(messages[i], attachments, useOriginalNames, i < |fetched| && fetched[i]);
        MediaStepsNext(start, messages, attachments, useOriginalNames, fetched, i);
        downloaded := downloaded + 1;
        i := i + 1;
      }
      StopIsFirst(interrupts, |messages|, i);
    }
  }
}
