/**
 * The library indexer of src/services/MusicService.ts: filename parsing, the
 * audio-extension allow-list, the recursive scan of the storage roots,
 * first-occurrence deduplication, the demo-catalog fallback, the cache slot
 * with its in-flight-scan guard, and limit/offset paging.
 *
 * The filesystem is an abstract tree (`Listing`), the cache file an abstract
 * stored list; JSON encoding of the cache file is taken to be lossless.
 */
module MusicService {
  import opened Wrappers
  import opened Strings

  /** One track of the library (the `Track` interface). */
  datatype Track = Track(
    id: string,
    url: string,
    title: string,
    artist: string,
    artwork: Option<string>,
    duration: Option<int>)

  datatype Metadata = Metadata(title: string, artist: string)

  const Delimiter: string := " - "
  const UnknownArtist: string := "Unknown Artist"

  // ---------------------------------------------------------------------------
  // Filename metadata
  // ---------------------------------------------------------------------------

  /** The regular expression `\.[^/.]+$` matches `name` at `k`: a dot followed by one or more characters, none a dot or a slash, up to the end. */
  predicate IsExtensionAt(name: string, k: int) {
    0 <= k < |name| - 1 && name[k] == '.' &&
    forall j :: k < j < |name| ==> name[j] != '.' && name[j] != '/'
  }

  ghost predicate HasExtension(name: string) {
    exists k :: 0 <= k < |name| && IsExtensionAt(name, k)
  }

  /** The index of the last dot of `name`, or -1. */
  function LastDot(name: string): (r: int)
    ensures r == -1 || (0 <= r < |name| && name[r] == '.')
    ensures forall j :: r < j < |name| ==> name[j] != '.'
  {
    if name == [] then -1
    else if name[|name| - 1] == '.' then |name| - 1
    else LastDot(name[..|name| - 1])
  }

  /** `filename.replace(/\.[^/.]+$/, '')`: the name without its final extension, if it has one. */
  function StripExtension(name: string): (r: string)
    ensures r != name <==> HasExtension(name)
    ensures r != name ==> IsExtensionAt(name, |r|) && r == name[..|r|]
  {
    var k := LastDot(name);
    if k >= 0 && k < |name| - 1 && (forall j :: k < j < |name| ==> name[j] != '/') then
      assert IsExtensionAt(name, k);
      name[..k]
    else
      assert !HasExtension(name) by {
        forall k' | 0 <= k' < |name| ensures !IsExtensionAt(name, k') {
          if k' > k {
            assert name[k'] != '.';
          }
        }
      }
      name
  }

  /**
   * `m` is cut from `name` at its first `" - "`: the artist is what precedes it
   * and the title everything after it, both trimmed; without a delimiter the
   * artist is "Unknown Artist" and the title the whole name, untrimmed.
   */
  predicate SplitsAtFirstDelimiter(name: string, m: Metadata) {
    var i := IndexOf(name, Delimiter);
    && (i >= 0 ==> m.artist == Trim(name[..i]) && m.title == Trim(name[i + |Delimiter|..]))
    && (i < 0 ==> m.artist == UnknownArtist && m.title == name)
  }

  /** `extractMetadataFromFilename`: strip the extension, then cut the rest at its first `" - "`. */
  function ExtractMetadataFromFilename(filename: string): (r: Metadata)
    ensures SplitsAtFirstDelimiter(StripExtension(filename), r)
  {
    MetadataOfName(StripExtension(filename))
  }

  /** The split step of `extractMetadataFromFilename`, on the extension-less name. */
  function MetadataOfName(nameWithoutExt: string): (r: Metadata)
    ensures SplitsAtFirstDelimiter(nameWithoutExt, r)
  {
    SplitPieces(nameWithoutExt);
    var parts := Split(nameWithoutExt, Delimiter);
    if |parts| >= 2 then
      Metadata(Trim(Join(parts[1..], Delimiter)), Trim(parts[0]))
    else
      Metadata(nameWithoutExt, UnknownArtist)
  }

  /** How `split(" - ")` cuts an extension-less name: at its first delimiter, or not at all. */
  lemma SplitPieces(name: string)
    ensures var parts := Split(name, Delimiter);
      var i := IndexOf(name, Delimiter);
      && (i >= 0 ==> |parts| >= 2 && parts[0] == name[..i] && Join(parts[1..], Delimiter) == name[i + |Delimiter|..])
      && (i < 0 ==> parts == [name])
  {
    if IndexOf(name, Delimiter) >= 0 {
      SplitTail(name, Delimiter);
    }
  }

  /** "Artist A - Song One.mp3" names artist "Artist A" and title "Song One". */
  lemma MetadataExampleWithArtist()
    ensures ExtractMetadataFromFilename("Artist A - Song One.mp3") == Metadata("Song One", "Artist A")
  {
    StripExample();
    DelimiterInExample();
    PiecesExample();
    TrimmedArtistExample();
    TrimmedTitleExample();
  }

  lemma StripExample()
    ensures StripExtension("Artist A - Song One.mp3") == "Artist A - Song One"
  {
    assert IsExtensionAt("Artist A - Song One.mp3", 19);
  }

  lemma PiecesExample()
    ensures "Artist A - Song One"[..8] == "Artist A"
    ensures "Artist A - Song One"[11..] == "Song One"
  {
  }

  lemma DelimiterInExample()
    ensures IndexOf("Artist A - Song One", Delimiter) == 8
  {
    var name := "Artist A - Song One";
    assert OccursAt(name, Delimiter, 8);
    forall j | 0 <= j < 8 ensures !OccursAt(name, Delimiter, j) {
      OccursAtChar(name, Delimiter, j, 1);
      assert name[j + 1] != Delimiter[1];
    }
  }

  lemma TrimmedArtistExample()
    ensures Trim("Artist A") == "Artist A"
  {
    var a := "Artist A";
    assert !IsWhitespace(a[0]) && !IsWhitespace(a[|a| - 1]);
    TrimNoOp(a);
  }

  lemma TrimmedTitleExample()
    ensures Trim("Song One") == "Song One"
  {
    var b := "Song One";
    assert !IsWhitespace(b[0]) && !IsWhitespace(b[|b| - 1]);
    TrimNoOp(b);
  }

  /** "Song Two.mp3" has no delimiter: artist "Unknown Artist", title "Song Two". */
  lemma MetadataExampleWithoutArtist()
    ensures ExtractMetadataFromFilename("Song Two.mp3") == Metadata("Song Two", UnknownArtist)
  {
    var file := "Song Two.mp3";
    assert IsExtensionAt(file, 8);
    assert StripExtension(file) == "Song Two";
    forall j | 0 <= j ensures !OccursAt("Song Two", Delimiter, j) {
      OccursAtChar("Song Two", Delimiter, j, 1);
      assert j + 1 < 8 ==> "Song Two"[j + 1] != Delimiter[1];
    }
  }

  // ---------------------------------------------------------------------------
  // Extension allow-list and track construction
  // ---------------------------------------------------------------------------

  const MusicExtensions: seq<string> := [".mp3", ".m4a", ".wav", ".flac", ".aac"]

  /** `musicExtensions.some(ext => name.toLowerCase().endsWith(ext))` */
  predicate IsMusicFile(name: string) {
    exists i :: 0 <= i < |MusicExtensions| && EndsWith(ToLower(name), MusicExtensions[i])
  }

  /** The allow-list ignores case: "Song.MP3" is indexed; "cover.jpg" is not. */
  lemma ExtensionExamples()
    ensures IsMusicFile("Song.MP3")
    ensures !IsMusicFile("cover.jpg")
  {
    assert ToLower("Song.MP3") == "song.mp3";
    assert EndsWith("song.mp3", MusicExtensions[0]);
    var lower := ToLower("cover.jpg");
    forall i | 0 <= i < |MusicExtensions| ensures !EndsWith(lower, MusicExtensions[i]) {
      assert lower[|lower| - 1] == 'g';
    }
  }

  /** The test ignores case: a name passes exactly when its lower-case form does. */
  lemma {:induction false} IsMusicFileIgnoresCase(name: string)
    ensures IsMusicFile(ToLower(name)) <==> IsMusicFile(name)
  {
    var lower := ToLower(name);
    forall j | 0 <= j < |lower| ensures ToLower(lower)[j] == lower[j] {
      assert !('A' <= lower[j] <= 'Z');
    }
    assert ToLower(lower) == lower;
  }

  /** `ext` is a dot followed by at least one character that is neither a dot nor a slash. */
  predicate IsExtensionText(ext: string) {
    |ext| >= 2 && ext[0] == '.' && forall j :: 0 < j < |ext| ==> ext[j] != '.' && ext[j] != '/'
  }

  lemma MusicExtensionsAreExtensions(i: int)
    requires 0 <= i < |MusicExtensions|
    ensures IsExtensionText(MusicExtensions[i])
  {
  }

  /** At most one position of a name starts its extension. */
  lemma ExtensionPositionUnique(name: string, a: int, b: int)
    requires IsExtensionAt(name, a) && IsExtensionAt(name, b)
    ensures a == b
  {
  }

  /** A name whose lower-case form ends in an extension loses exactly that many characters when its extension is stripped. */
  lemma StripsLowerCaseSuffix(name: string, ext: string)
    requires IsExtensionText(ext) && EndsWith(ToLower(name), ext)
    ensures StripExtension(name) == name[..|name| - |ext|]
  {
    var lower := ToLower(name);
    var k := |name| - |ext|;
    forall j | k <= j < |name| ensures lower[j] == ext[j - k] {
      assert lower[k..][j - k] == lower[j];
    }
    assert IsExtensionAt(name, k);
    var r := StripExtension(name);
    ExtensionPositionUnique(name, k, |r|);
  }

  /** A music file's extension is exactly what `extractMetadataFromFilename` strips, so no title carries it. */
  lemma MusicFileLosesItsExtension(name: string)
    requires IsMusicFile(name)
    ensures exists i ::
      && 0 <= i < |MusicExtensions|
      && EndsWith(ToLower(name), MusicExtensions[i])
      && StripExtension(name) == name[..|name| - |MusicExtensions[i]|]
  {
    var i :| 0 <= i < |MusicExtensions| && EndsWith(ToLower(name), MusicExtensions[i]);
    MusicExtensionsAreExtensions(i);
    StripsLowerCaseSuffix(name, MusicExtensions[i]);
  }

  function FileUri(path: string): string {
    "file://" + path
  }

  /** The track the scan records for a music file. */
  function TrackForFile(name: string, path: string): (r: Track)
    ensures r.id == path && IsFileTrack(r)
    ensures SplitsAtFirstDelimiter(StripExtension(name), Metadata(r.title, r.artist))
  {
    var m := ExtractMetadataFromFilename(name);
    Track(path, FileUri(path), m.title, m.artist, None, None)
  }

  /** A track built from a file: its id is the path, its url the `file://` URI of that path, and it has no artwork or duration. */
  predicate IsFileTrack(t: Track) {
    t.url == FileUri(t.id) && t.artwork.None? && t.duration.None?
  }

  // ---------------------------------------------------------------------------
  // The directory tree and the scan
  // ---------------------------------------------------------------------------

  /** An item of `RNFS.readDir`: a file, a directory with what lies under its path, or neither. */
  datatype Entry =
    | File(name: string, path: string)
    | Directory(name: string, path: string, listing: Listing)
    | Other(name: string, path: string)

  /** What `scanDirectory` finds at a path: nothing there (`exists` is false), a listing that fails, or the items. */
  datatype Listing = Missing | Unreadable | Items(entries: seq<Entry>)

  /** The tracks `scanDirectory` collects from a listing, in listing order, depth first. */
  function ScanListing(l: Listing): (r: seq<Track>)
    ensures forall t :: t in r ==> IsFileTrack(t)
    decreases l
  {
    match l
    case Items(entries) => ScanEntries(entries)
    case _ => []
  }

  function ScanEntries(entries: seq<Entry>): (r: seq<Track>)
    ensures forall t :: t in r ==> IsFileTrack(t)
    decreases entries
  {
    if entries == [] then []
    else ScanEntries(entries[..|entries| - 1]) + ScanEntry(entries[|entries| - 1])
  }

  function ScanEntry(e: Entry): (r: seq<Track>)
    ensures forall t :: t in r ==> IsFileTrack(t)
    decreases e
  {
    match e
    case Directory(_, _, l) => ScanListing(l)
    case File(name, path) => if IsMusicFile(name) then [TrackForFile(name, path)] else []
    case Other(_, _) => []
  }

  /** `scanDirectory`: walks the listing, recursing into directories and keeping music files. */
  method ScanDirectory(dir: Listing) returns (tracks: seq<Track>)
    ensures tracks == ScanListing(dir)
    decreases dir
  {
    tracks := [];
    if !dir.Items? {
      return;
    }
    var items := dir.entries;
    var i := 0;
    while i < |items|
      invariant 0 <= i <= |items|
      invariant tracks == ScanEntries(items[..i])
    {
      assert items[..i + 1][..i] == items[..i];
      var found := ScanItem(items[i]);
      tracks := tracks + found;
      i := i + 1;
    }
    assert items[..i] == items;
  }

  /** One item of the walk: a directory is scanned in turn, a music file gives its track, anything else nothing. */
  method ScanItem(item: Entry) returns (found: seq<Track>)
    ensures found == ScanEntry(item)
    decreases item
  {
    found := [];
    match item {
      case Directory(_, _, sub) =>
        found := ScanDirectory(sub);
      case File(name, path) =>
        if IsMusicFile(name) {
          found := [TrackForFile(name, path)];
        }
      case Other(_, _) =>
    }
  }

  /** `l` lists the file `name` at `path`, directly or inside one of its sub-directories, at any depth. */
  ghost predicate ListingHasFile(l: Listing, name: string, path: string)
    decreases l
  {
    l.Items? && exists i :: 0 <= i < |l.entries| && EntryHasFile(l.entries[i], name, path)
  }

  /** `e` is the file `name` at `path`, or a directory whose listing has it. */
  ghost predicate EntryHasFile(e: Entry, name: string, path: string)
    decreases e
  {
    e == File(name, path) || (e.Directory? && ListingHasFile(e.listing, name, path))
  }

  /** A track of the files found in `l`: one for every music file, whatever its depth. */
  ghost predicate ScannedFrom(l: Listing, t: Track) {
    exists name, path :: ListingHasFile(l, name, path) && IsMusicFile(name) && t == TrackForFile(name, path)
  }

  /** The scan of each item of `entries`, in order. */
  ghost function ItemScans(entries: seq<Entry>): (r: seq<seq<Track>>)
    ensures |r| == |entries|
    ensures forall i :: 0 <= i < |entries| ==> r[i] == ScanEntry(entries[i])
  {
    seq(|entries|, i requires 0 <= i < |entries| => ScanEntry(entries[i]))
  }

  /** `t` is in one of the `parts`. */
  ghost predicate InSomePart(parts: seq<seq<Track>>, t: Track) {
    exists i :: 0 <= i < |parts| && t in parts[i]
  }

  /** `t` is in one of a non-empty sequence of parts exactly when it is in one before the last, or in the last. */
  lemma InSomePartSplit(parts: seq<seq<Track>>, t: Track)
    requires parts != []
    ensures InSomePart(parts, t) <==> InSomePart(parts[..|parts| - 1], t) || t in parts[|parts| - 1]
  {
    var init := parts[..|parts| - 1];
    if InSomePart(parts, t) {
      var i :| 0 <= i < |parts| && t in parts[i];
      if i < |init| {
        assert init[i] == parts[i];
      }
    }
    if InSomePart(init, t) {
      var i :| 0 <= i < |init| && t in init[i];
      assert init[i] == parts[i];
    }
  }

  /** The scan of a sequence of items holds exactly what the scans of the items hold. */
  lemma {:induction false} ScanEntriesMembers(entries: seq<Entry>, t: Track)
    ensures t in ScanEntries(entries) <==> InSomePart(ItemScans(entries), t)
    decreases entries
  {
    if entries != [] {
      var init := entries[..|entries| - 1];
      ScanEntriesMembers(init, t);
      assert ItemScans(entries)[..|entries| - 1] == ItemScans(init);
      InSomePartSplit(ItemScans(entries), t);
    }
  }

  /** A track of the file items in `e`: one for every music file it is or contains. */
  ghost predicate EntryScannedFrom(e: Entry, t: Track) {
    exists name, path :: EntryHasFile(e, name, path) && IsMusicFile(name) && t == TrackForFile(name, path)
  }

  /** A listing's files are its items' files. */
  lemma ItemsScannedFrom(l: Listing, t: Track)
    requires l.Items?
    ensures ScannedFrom(l, t) <==> exists i :: 0 <= i < |l.entries| && EntryScannedFrom(l.entries[i], t)
  {
    if ScannedFrom(l, t) {
      var name, path :| ListingHasFile(l, name, path) && IsMusicFile(name) && t == TrackForFile(name, path);
      ListingFileInItem(l, name, path);
    }
    if exists i :: 0 <= i < |l.entries| && EntryScannedFrom(l.entries[i], t) {
      var i :| 0 <= i < |l.entries| && EntryScannedFrom(l.entries[i], t);
      ItemFileInListing(l, i, t);
    }
  }

  lemma ListingFileInItem(l: Listing, name: string, path: string)
    requires ListingHasFile(l, name, path) && IsMusicFile(name)
    ensures exists i :: 0 <= i < |l.entries| && EntryScannedFrom(l.entries[i], TrackForFile(name, path))
  {
    var i :| 0 <= i < |l.entries| && EntryHasFile(l.entries[i], name, path);
    assert EntryScannedFrom(l.entries[i], TrackForFile(name, path));
  }

  lemma ItemFileInListing(l: Listing, i: int, t: Track)
    requires l.Items? && 0 <= i < |l.entries| && EntryScannedFrom(l.entries[i], t)
    ensures ScannedFrom(l, t)
  {
    var name, path :| EntryHasFile(l.entries[i], name, path) && IsMusicFile(name) && t == TrackForFile(name, path);
    assert ListingHasFile(l, name, path);
  }

  /** When each item's scan holds exactly its files' tracks, so does the listing's sequence of item scans. */
  lemma ItemsAgree(l: Listing, t: Track)
    requires l.Items?
    requires forall i :: 0 <= i < |l.entries| ==> (t in ScanEntry(l.entries[i]) <==> EntryScannedFrom(l.entries[i], t))
    ensures InSomePart(ItemScans(l.entries), t) <==> ScannedFrom(l, t)
  {
    ItemsScannedFrom(l, t);
    assert InSomePart(ItemScans(l.entries), t) <==> exists i :: 0 <= i < |l.entries| && t in ScanEntry(l.entries[i]);
  }

  /** A directory item's files are its listing's files. */
  lemma DirectoryScannedFrom(e: Entry, t: Track)
    requires e.Directory?
    ensures EntryScannedFrom(e, t) <==> ScannedFrom(e.listing, t)
  {
    if ScannedFrom(e.listing, t) {
      var name, path :| ListingHasFile(e.listing, name, path) && IsMusicFile(name) && t == TrackForFile(name, path);
      assert EntryHasFile(e, name, path);
    }
  }

  /**
   * The walk misses nothing and invents nothing: a track is in the scan of a
   * listing exactly when it is the track of a music file somewhere below it.
   */
  lemma {:induction false} ScanListingMembers(l: Listing, t: Track)
    ensures t in ScanListing(l) <==> ScannedFrom(l, t)
    decreases l, 1
  {
    if l.Items? {
      var entries := l.entries;
      ScanEntriesMembers(entries, t);
      forall i | 0 <= i < |entries| ensures t in ScanEntry(entries[i]) <==> EntryScannedFrom(entries[i], t) {
        ScanEntryMembers(entries[i], t);
      }
      ItemsAgree(l, t);
    }
  }

  /** The same for one item: its scan holds the tracks of the music files it is or contains. */
  lemma {:induction false} ScanEntryMembers(e: Entry, t: Track)
    ensures t in ScanEntry(e) <==> EntryScannedFrom(e, t)
    decreases e, 0
  {
    match e
    case Directory(_, _, sub) =>
      ScanListingMembers(sub, t);
      DirectoryScannedFrom(e, t);
    case File(name, path) =>
      if t in ScanEntry(e) {
        assert EntryHasFile(e, name, path);
      }
    case Other(_, _) =>
  }

  // ---------------------------------------------------------------------------
  // Deduplication
  // ---------------------------------------------------------------------------

  function FindIndexFrom(s: seq<Track>, id: string, from: nat): (r: int)
    requires from <= |s|
    ensures r == -1 || (from <= r < |s| && s[r].id == id)
    ensures forall j :: from <= j < |s| && (r == -1 || j < r) ==> s[j].id != id
    decreases |s| - from
  {
    if from == |s| then -1
    else if s[from].id == id then from
    else FindIndexFrom(s, id, from + 1)
  }

  /** `s.findIndex(t => t.id === id)`: the first position holding `id`, or -1. */
  function FindIndex(s: seq<Track>, id: string): (r: int)
    ensures -1 <= r < |s|
    ensures r >= 0 ==> s[r].id == id
    ensures forall j :: 0 <= j < |s| && (r == -1 || j < r) ==> s[j].id != id
  {
    FindIndexFrom(s, id, 0)
  }

  /** The first `n` tracks of `s` filtered by `index === self.findIndex(t => t.id === track.id)`. */
  function KeepFirst(s: seq<Track>, n: nat): (r: seq<Track>)
    requires n <= |s|
    ensures |r| <= n
    ensures forall t :: t in r ==> t in s
    ensures n > 0 ==> s[0] in r
  {
    if n == 0 then []
    else KeepFirst(s, n - 1) + (if FindIndex(s, s[n - 1].id) == n - 1 then [s[n - 1]] else [])
  }

  /** The deduplication filter of `performFullScan`. */
  function Dedup(s: seq<Track>): (r: seq<Track>)
    ensures |r| <= |s|
    ensures forall t :: t in r ==> t in s
    ensures s != [] ==> r != []
  {
    KeepFirst(s, |s|)
  }

  predicate DistinctIds(s: seq<Track>) {
    forall i, j :: 0 <= i < j < |s| ==> s[i].id != s[j].id
  }

  /** Every track the filter keeps among the first `n` is the first occurrence of its id, and that lies before `n`. */
  lemma {:induction false} KeptAreFirst(s: seq<Track>, n: nat)
    requires n <= |s|
    ensures forall t :: t in KeepFirst(s, n) ==>
      0 <= FindIndex(s, t.id) < n && s[FindIndex(s, t.id)] == t
  {
    if n > 0 {
      KeptAreFirst(s, n - 1);
    }
  }

  /** Appending a track whose id none of the others carries keeps the ids distinct. */
  lemma AppendKeepsDistinct(prefix: seq<Track>, t: Track)
    requires DistinctIds(prefix)
    requires forall u :: u in prefix ==> u.id != t.id
    ensures DistinctIds(prefix + [t])
  {
    var r := prefix + [t];
    forall i, j | 0 <= i < j < |r| ensures r[i].id != r[j].id {
      assert r[i] == prefix[i];
      if j < |prefix| {
        assert r[j] == prefix[j];
      } else {
        assert prefix[i] in prefix;
      }
    }
  }

  lemma {:induction false} KeepFirstDistinct(s: seq<Track>, n: nat)
    requires n <= |s|
    ensures DistinctIds(KeepFirst(s, n))
  {
    if n > 0 {
      KeepFirstDistinct(s, n - 1);
      if FindIndex(s, s[n - 1].id) == n - 1 {
        KeptAreFirst(s, n - 1);
        AppendKeepsDistinct(KeepFirst(s, n - 1), s[n - 1]);
        assert KeepFirst(s, n) == KeepFirst(s, n - 1) + [s[n - 1]];
      } else {
        assert KeepFirst(s, n) == KeepFirst(s, n - 1);
      }
    }
  }

  /** After deduplication no two tracks share an id. */
  lemma DedupDistinct(s: seq<Track>)
    ensures DistinctIds(Dedup(s))
  {
    KeepFirstDistinct(s, |s|);
  }

  lemma {:induction false} KeepFirstHasFirsts(s: seq<Track>, n: nat)
    requires n <= |s|
    ensures forall k :: 0 <= k < n && FindIndex(s, s[k].id) == k ==> s[k] in KeepFirst(s, n)
  {
    if n > 0 {
      KeepFirstHasFirsts(s, n - 1);
    }
  }

  /**
   * Deduplication loses no id and invents none: every id of the scan is still
   * there, carried by its first occurrence, and every kept track is the first
   * occurrence of its id in the scan.
   */
  lemma DedupKeepsFirstOccurrences(s: seq<Track>)
    ensures forall k :: 0 <= k < |s| ==> s[FindIndex(s, s[k].id)] in Dedup(s)
    ensures forall t :: t in Dedup(s) ==> t in s && s[FindIndex(s, t.id)] == t
  {
    KeepFirstHasFirsts(s, |s|);
    KeptAreFirst(s, |s|);
    forall k | 0 <= k < |s| ensures s[FindIndex(s, s[k].id)] in Dedup(s) {
      var f := FindIndex(s, s[k].id);
      assert FindIndex(s, s[f].id) == f;
    }
  }

  /** The tracks of `r` come in the order in which their ids first occur in `s`. */
  predicate InFirstOccurrenceOrder(s: seq<Track>, r: seq<Track>) {
    forall i, j :: 0 <= i < j < |r| ==> FindIndex(s, r[i].id) < FindIndex(s, r[j].id)
  }

  /** Appending a track whose id first occurs after those of all the others keeps the order. */
  lemma AppendKeepsOrder(s: seq<Track>, prefix: seq<Track>, t: Track)
    requires InFirstOccurrenceOrder(s, prefix)
    requires forall u :: u in prefix ==> FindIndex(s, u.id) < FindIndex(s, t.id)
    ensures InFirstOccurrenceOrder(s, prefix + [t])
  {
    var r := prefix + [t];
    forall i, j | 0 <= i < j < |r| ensures FindIndex(s, r[i].id) < FindIndex(s, r[j].id) {
      assert r[i] == prefix[i];
      if j < |prefix| {
        assert r[j] == prefix[j];
      } else {
        assert prefix[i] in prefix;
      }
    }
  }

  /** The filter keeps its tracks in the order of their first occurrences. */
  lemma {:induction false} KeepFirstKeepsOrder(s: seq<Track>, n: nat)
    requires n <= |s|
    ensures InFirstOccurrenceOrder(s, KeepFirst(s, n))
  {
    if n > 0 {
      KeepFirstKeepsOrder(s, n - 1);
      if FindIndex(s, s[n - 1].id) == n - 1 {
        KeptAreFirst(s, n - 1);
        AppendKeepsOrder(s, KeepFirst(s, n - 1), s[n - 1]);
        assert KeepFirst(s, n) == KeepFirst(s, n - 1) + [s[n - 1]];
      } else {
        assert KeepFirst(s, n) == KeepFirst(s, n - 1);
      }
    }
  }

  /**
   * Deduplication keeps the scan's order: of two kept tracks, the one whose id
   * occurs first in the scan comes first.
   */
  lemma DedupKeepsOrder(s: seq<Track>)
    ensures InFirstOccurrenceOrder(s, Dedup(s))
  {
    KeepFirstKeepsOrder(s, |s|);
  }

  lemma {:induction false} KeepFirstOfDistinct(s: seq<Track>, n: nat)
    requires n <= |s| && DistinctIds(s)
    ensures KeepFirst(s, n) == s[..n]
  {
    if n > 0 {
      KeepFirstOfDistinct(s, n - 1);
      assert s[..n] == s[..n - 1] + [s[n - 1]];
    }
  }

  /** A list whose ids are already distinct is left as it is, so deduplicating twice is deduplicating once. */
  lemma DedupIdempotent(s: seq<Track>)
    ensures DistinctIds(s) ==> Dedup(s) == s
    ensures Dedup(Dedup(s)) == Dedup(s)
  {
    if DistinctIds(s) {
      KeepFirstOfDistinct(s, |s|);
      assert s[..|s|] == s;
    }
    DedupDistinct(s);
    KeepFirstOfDistinct(Dedup(s), |Dedup(s)|);
    assert Dedup(s)[..|Dedup(s)|] == Dedup(s);
  }

  // ---------------------------------------------------------------------------
  // The full scan
  // ---------------------------------------------------------------------------

  const DemoTrack: Track := Track(
    "1",
    "https://www.soundhelix.com/examples/mp3/SoundHelix-Song-1.mp3",
    "Demo Song 1",
    "SoundHelix",
    Some("https://images.unsplash.com/photo-1470225620780-dba8ba36b745?w=500&auto=format&fit=crop&q=60"),
    None)

  /** The two storage roots `performFullScan` walks: the external storage directory and the download directory. */
  datatype Storage = Storage(externalStorage: Listing, downloads: Listing)

  function Roots(fs: Storage): seq<Listing> {
    [fs.externalStorage, fs.downloads]
  }

  /** The scans of `roots`, concatenated in order. */
  function ScanRoots(roots: seq<Listing>): seq<Track> {
    if roots == [] then []
    else ScanRoots(roots[..|roots| - 1]) + ScanListing(roots[|roots| - 1])
  }

  /** What `performFullScan` returns: the deduplicated scan, or the demo catalog when that is empty. It is never empty and no two of its tracks share an id. */
  function FullScan(fs: Storage): (r: seq<Track>)
    ensures |r| >= 1
    ensures DistinctIds(r)
  {
    var unique := Dedup(ScanRoots(Roots(fs)));
    DedupDistinct(ScanRoots(Roots(fs)));
    if |unique| == 0 then [DemoTrack] else unique
  }

  /** An empty scan falls back to exactly the demo track; otherwise every track is a file's track. */
  lemma FullScanShape(fs: Storage)
    ensures ScanRoots(Roots(fs)) == [] ==> FullScan(fs) == [DemoTrack]
    ensures ScanRoots(Roots(fs)) != [] ==> forall t :: t in FullScan(fs) ==> IsFileTrack(t)
  {
    var all := ScanRoots(Roots(fs));
    DedupKeepsFirstOccurrences(all);
    assert ScanRoots(Roots(fs)[..1]) == ScanListing(fs.externalStorage);
    forall t | t in all ensures IsFileTrack(t) {
      var l := ScanListing(fs.externalStorage);
      var r := ScanListing(fs.downloads);
      assert all == l + r;
      assert t in l || t in r;
    }
  }

  /** A music file somewhere under one of the two roots. */
  ghost predicate MusicFileIn(fs: Storage, name: string, path: string) {
    IsMusicFile(name) && (ListingHasFile(fs.externalStorage, name, path) || ListingHasFile(fs.downloads, name, path))
  }

  /** The scan of both roots holds exactly the tracks of the music files under them. */
  lemma ScanRootsMembers(fs: Storage, t: Track)
    ensures t in ScanRoots(Roots(fs)) <==> exists name, path :: MusicFileIn(fs, name, path) && t == TrackForFile(name, path)
  {
    var ext := fs.externalStorage;
    var dl := fs.downloads;
    assert ScanRoots(Roots(fs)[..1]) == ScanListing(ext);
    assert ScanRoots(Roots(fs)) == ScanListing(ext) + ScanListing(dl);
    ScanListingMembers(ext, t);
    ScanListingMembers(dl, t);
    if t in ScanListing(ext) {
      var name, path :| ListingHasFile(ext, name, path) && IsMusicFile(name) && t == TrackForFile(name, path);
      assert MusicFileIn(fs, name, path);
    } else if t in ScanListing(dl) {
      var name, path :| ListingHasFile(dl, name, path) && IsMusicFile(name) && t == TrackForFile(name, path);
      assert MusicFileIn(fs, name, path);
    }
  }

  /** With no music file under either root the catalog is the demo track alone. */
  lemma FullScanWithoutMusic(fs: Storage)
    ensures (forall name, path :: !MusicFileIn(fs, name, path)) ==> FullScan(fs) == [DemoTrack]
  {
    var all := ScanRoots(Roots(fs));
    if all != [] {
      var t := all[0];
      assert t in all;
      ScanRootsMembers(fs, t);
    }
  }

  /** Once there is music on the device, every track of the catalog is the track of a music file under one of the roots. */
  lemma FullScanTracksAreMusicFiles(fs: Storage)
    ensures (exists name, path :: MusicFileIn(fs, name, path)) ==>
      forall t :: t in FullScan(fs) ==> exists name, path :: MusicFileIn(fs, name, path) && t == TrackForFile(name, path)
  {
    if exists name, path :: MusicFileIn(fs, name, path) {
      var name, path :| MusicFileIn(fs, name, path);
      ScanRootsMembers(fs, TrackForFile(name, path));
      forall t | t in FullScan(fs) ensures exists name, path :: MusicFileIn(fs, name, path) && t == TrackForFile(name, path) {
        ScanRootsMembers(fs, t);
      }
    }
  }

  /** Every music file under the roots is in the catalog: its path is the id of one of the tracks. */
  lemma FullScanHasEveryMusicFile(fs: Storage, name: string, path: string)
    requires MusicFileIn(fs, name, path)
    ensures exists t :: t in FullScan(fs) && t.id == path
  {
    var all := ScanRoots(Roots(fs));
    ScanRootsMembers(fs, TrackForFile(name, path));
    var k :| 0 <= k < |all| && all[k] == TrackForFile(name, path);
    DedupKeepsFirstOccurrences(all);
    var f := FindIndex(all, path);
    assert all[f] in Dedup(all);
  }

  /** `performFullScan`: scans each root in turn, concatenating, then deduplicates and falls back to the demo catalog. */
  method PerformFullScan(fs: Storage) returns (tracks: seq<Track>)
    ensures tracks == FullScan(fs)
    ensures |tracks| >= 1 && DistinctIds(tracks)
  {
    var foldersToScan := Roots(fs);
    var allTracks: seq<Track> := [];
    for i := 0 to |foldersToScan|
      invariant allTracks == ScanRoots(foldersToScan[..i])
    {
      var found := ScanDirectory(foldersToScan[i]);
      assert foldersToScan[..i + 1][..i] == foldersToScan[..i];
      allTracks := allTracks + found;
    }
    assert foldersToScan[..|foldersToScan|] == foldersToScan;
    var uniqueTracks := Dedup(allTracks);
    if |uniqueTracks| == 0 {
      tracks := [DemoTrack];
    } else {
      tracks := uniqueTracks;
    }
    FullScanShape(fs);
  }

  // ---------------------------------------------------------------------------
  // Paging
  // ---------------------------------------------------------------------------

  /** How `Array.prototype.slice` resolves an index against a length: negative counts from the end, both clamped into `[0, len]`. */
  function RelativeIndex(k: int, len: nat): (r: nat)
    ensures r <= len
    ensures 0 <= k ==> r == if k < len then k else len
    ensures k < 0 ==> r == if len + k < 0 then 0 else len + k
  {
    if k < 0 then (if len + k < 0 then 0 else len + k)
    else if k > len then len
    else k
  }

  /** `s.slice(start, end)`. */
  function Slice<T>(s: seq<T>, start: int, end: int): seq<T> {
    var a := RelativeIndex(start, |s|);
    var b := RelativeIndex(end, |s|);
    if a < b then s[a..b] else []
  }

  function Min(a: int, b: int): int {
    if a < b then a else b
  }

  /** What `getTracks` returns. */
  datatype Page = Page(tracks: seq<Track>, total: nat)

  /** The page of `all` that `getTracks` returns for `limit` and `offset`. */
  function PageOf(all: seq<Track>, limit: int, offset: int): (p: Page)
    ensures p.total == |all|
    ensures 0 <= offset && 0 <= limit ==> p.tracks == all[Min(offset, |all|)..Min(offset + limit, |all|)]
    ensures offset >= |all| ==> p.tracks == []
    ensures 0 <= limit ==> |p.tracks| <= limit
  {
    var a := RelativeIndex(offset, |all|);
    var b := RelativeIndex(offset + limit, |all|);
    assert 0 <= limit ==> b - a <= limit;
    var tracks := Slice(all, offset, offset + limit);
    assert tracks == if a < b then all[a..b] else [];
    Page(tracks, |all|)
  }

  /** On a five-track catalog, limit 2 at offset 0 gives two tracks and at offset 4 one, with total 5. */
  lemma PageExamples(all: seq<Track>)
    requires |all| == 5
    ensures PageOf(all, 2, 0).tracks == all[..2] && PageOf(all, 2, 0).total == 5
    ensures PageOf(all, 2, 4).tracks == all[4..]
  {
  }

  // ---------------------------------------------------------------------------
  // The cache slot and the scan guard
  // ---------------------------------------------------------------------------

  const DefaultLimit: int := 20
  const DefaultOffset: int := 0

  /**
   * The module state of MusicService.ts (`isScanning`, `trackCache`) together
   * with the cache file `track_cache.json` it reads and writes.
   */
  class MusicLibrary {
    var isScanning: bool
    var trackCache: Option<seq<Track>>
    /** The list stored in the cache file, or None when there is no such file. */
    var cacheFile: Option<seq<Track>>

    /** A fresh process: nothing scanned, nothing cached in memory, the cache file as it is on disk. */
    constructor(storedCache: Option<seq<Track>>)
      ensures !isScanning && trackCache == None && cacheFile == storedCache
    {
      isScanning := false;
      trackCache := None;
      cacheFile := storedCache;
    }

    /** `loadTracksFromCache`: the stored list, or null when the file is absent or cannot be read. */
    method LoadTracksFromCache(readOk: bool) returns (r: Option<seq<Track>>)
      ensures r == if readOk then cacheFile else None
    {
      if readOk && cacheFile.Some? {
        r := cacheFile;
      } else {
        r := None;
      }
    }

    /** `saveTracksToCache`: a failed write is swallowed and leaves the file as it was. */
    method SaveTracksToCache(tracks: seq<Track>, writeOk: bool)
      modifies this`cacheFile
      ensures cacheFile == if writeOk then Some(tracks) else old(cacheFile)
    {
      if writeOk {
        cacheFile := Some(tracks);
      }
    }

    /**
     * `initializeTrackCache`. While a scan is in flight it does nothing.
     * Otherwise, unless `forceRescan`, a readable cache file is used as it is and
     * nothing is scanned; in every other case the full scan replaces the cache
     * and is written to the file. The guard is always released at the end.
     */
    method InitializeTrackCache(forceRescan: bool, fs: Storage, readOk: bool, writeOk: bool)
      modifies this`isScanning, this`trackCache, this`cacheFile
      ensures old(isScanning) ==>
        isScanning && trackCache == old(trackCache) && cacheFile == old(cacheFile)
      ensures !old(isScanning) ==> !isScanning && trackCache.Some?
      ensures !old(isScanning) && !forceRescan && readOk && old(cacheFile).Some? ==>
        trackCache == old(cacheFile) && cacheFile == old(cacheFile)
      ensures !old(isScanning) && (forceRescan || !readOk || old(cacheFile).None?) ==>
        && trackCache == Some(FullScan(fs))
        && cacheFile == if writeOk then Some(FullScan(fs)) else old(cacheFile)
    {
      if isScanning {
        return;
      }
      isScanning := true;
      if !forceRescan {
        trackCache := LoadTracksFromCache(readOk);
        if trackCache.Some? {
          isScanning := false;
          return;
        }
      }
      var tracks := PerformFullScan(fs);
      trackCache := Some(tracks);
      SaveTracksToCache(tracks, writeOk);
      isScanning := false;
    }

    /**
     * `getTracks`: fills the cache when it is empty or a rescan is asked for, then
     * returns the page of `trackCache || []`. A call that arrives while a scan is
     * in flight starts no second scan and pages whatever the cache holds.
     */
    method GetTracks(limit: int, offset: int, forceRescan: bool, fs: Storage, readOk: bool, writeOk: bool)
      returns (page: Page)
      modifies this`isScanning, this`trackCache, this`cacheFile
      ensures page == PageOf(trackCache.GetOr([]), limit, offset)
      ensures old(trackCache).Some? && !forceRescan ==>
        isScanning == old(isScanning) && trackCache == old(trackCache) && cacheFile == old(cacheFile)
      ensures old(isScanning) ==>
        isScanning && trackCache == old(trackCache) && cacheFile == old(cacheFile)
      ensures !old(isScanning) ==> !isScanning && trackCache.Some?
      ensures !old(isScanning) && !forceRescan && old(trackCache).None? && readOk && old(cacheFile).Some? ==>
        trackCache == old(cacheFile) && cacheFile == old(cacheFile)
      ensures !old(isScanning) && (forceRescan || (old(trackCache).None? && (!readOk || old(cacheFile).None?))) ==>
        && trackCache == Some(FullScan(fs))
        && cacheFile == if writeOk then Some(FullScan(fs)) else old(cacheFile)
    {
      if trackCache.None? || forceRescan {
        InitializeTrackCache(forceRescan, fs, readOk, writeOk);
      }
      var allTracks := trackCache.GetOr([]);
      page := Page(Slice(allTracks, offset, offset + limit), |allTracks|);
    }

    /** `getAllTracks`: `getTracks` with limit 20, offset 0 and no rescan unless given, returning only the tracks. */
    method GetAllTracks(limit: Option<int>, offset: Option<int>, forceRescan: Option<bool>,
                        fs: Storage, readOk: bool, writeOk: bool)
      returns (tracks: seq<Track>)
      modifies this`isScanning, this`trackCache, this`cacheFile
      ensures tracks == PageOf(trackCache.GetOr([]), limit.GetOr(DefaultLimit), offset.GetOr(DefaultOffset)).tracks
      ensures limit.None? ==> |tracks| <= DefaultLimit
      ensures offset.None? && limit.None? ==> tracks == trackCache.GetOr([])[..Min(DefaultLimit, |trackCache.GetOr([])|)]
      ensures old(trackCache).Some? && !forceRescan.GetOr(false) ==>
        isScanning == old(isScanning) && trackCache == old(trackCache) && cacheFile == old(cacheFile)
      ensures old(isScanning) ==>
        isScanning && trackCache == old(trackCache) && cacheFile == old(cacheFile)
      ensures !old(isScanning) ==> !isScanning && trackCache.Some?
      ensures !old(isScanning) && !forceRescan.GetOr(false) && old(trackCache).None? && readOk && old(cacheFile).Some? ==>
        trackCache == old(cacheFile) && cacheFile == old(cacheFile)
      ensures !old(isScanning) && (forceRescan.GetOr(false) || (old(trackCache).None? && (!readOk || old(cacheFile).None?))) ==>
        && trackCache == Some(FullScan(fs))
        && cacheFile == if writeOk then Some(FullScan(fs)) else old(cacheFile)
    {
      var result := GetTracks(limit.GetOr(DefaultLimit), offset.GetOr(DefaultOffset), forceRescan.GetOr(false),
                              fs, readOk, writeOk);
      tracks := result.tracks;
    }

    /** `rescanLibrary`: a forced `initializeTrackCache`. */
    method RescanLibrary(fs: Storage, writeOk: bool)
      modifies this`isScanning, this`trackCache, this`cacheFile
      ensures old(isScanning) ==>
        isScanning && trackCache == old(trackCache) && cacheFile == old(cacheFile)
      ensures !old(isScanning) ==>
        && !isScanning
        && trackCache == Some(FullScan(fs))
        && cacheFile == if writeOk then Some(FullScan(fs)) else old(cacheFile)
    {
      InitializeTrackCache(true, fs, false, writeOk);
    }
  }

  /**
   * A rescan whose cache write succeeds, followed by a fresh process that reads
   * the cache without rescanning, sees the same ordered track list.
   */
  method CacheRoundTrip(fs: Storage, limit: int) returns (scanned: seq<Track>, reloaded: seq<Track>)
    ensures scanned == FullScan(fs)
    ensures reloaded == scanned
  {
    var first := new MusicLibrary(None);
    first.RescanLibrary(fs, true);
    scanned := first.trackCache.value;
    var second := new MusicLibrary(first.cacheFile);
    var page := second.GetTracks(limit, 0, false, fs, true, true);
    reloaded := second.trackCache.value;
  }
}
