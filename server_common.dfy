/**
 * What the question/answer server's scripts share: the configuration, a
 * directory listing as scandir and filemtime see it, the file operations a
 * script performs, the key check, the checks on an uploaded file, the
 * regular expressions the scripts grep listings with, and the stored-file
 * name "<id>-<sha1>.<ext>".
 */
module ServerCommon {
  import opened Common

  /** $QUESTION_RESERVATION_TIME: seconds a reservation stays live. */
  const QUESTION_RESERVATION_TIME: int := 240
  /** $RECENT_ANSWERS_LIST_TIME: seconds an answer stays in the answered list. */
  const RECENT_ANSWERS_LIST_TIME: int := 600
  /** The largest accepted upload, in bytes. */
  const MAX_UPLOAD_SIZE: int := 1500000

  /** $ROOT_URL, the two keys and the two storage directories. */
  datatype Config = Config(rootUrl: string, answerAppKey: string, applianceKey: string, questionDir: string, answerDir: string)

  /** A name scandir lists, with its filemtime. */
  datatype Entry = Entry(name: string, mtime: int)

  /** What a script does to the storage, in order. */
  datatype FileOp =
    | Touch(path: string)
    | Unlink(path: string)
    | Rename(from: string, to: string)
    | MoveUpload(to: string)

  /** What a script sends back: the text it echoes, or nothing when it never finishes. */
  datatype Reply = Echo(text: string) | Hangs

  /** isset($_X['k']) && strcmp($KEY, $_X['k']) === 0 */
  predicate KeyAccepted(expected: string, given: Option<string>)
  {
    given.Some? && given.value == expected
  }

  /** isset($_X['id']) and intval($_X['id']) > 0: the question number, or None for "error". */
  function QuestionIdOf(id: Option<string>): (r: Option<nat>)
    ensures r.Some? <==> id.Some? && PhpIntval(id.value) > 0
    ensures r.Some? ==> r.value > 0 && r.value == PhpIntval(id.value)
  {
    if id.Some? && PhpIntval(id.value) > 0 then Some(PhpIntval(id.value)) else None
  }

  /** A number the apps print in decimal is read back as that question number. */
  lemma QuestionIdRoundTrip(n: nat)
    requires n > 0
    ensures QuestionIdOf(Some(NatToString(n))) == Some(n)
  {
    PhpIntvalOfPrefix(n, []);
    assert NatToString(n) + [] == NatToString(n);
  }

  // ---------------------------------------------------------------------
  // Uploads
  // ---------------------------------------------------------------------

  const UPLOAD_ERR_OK: int := 0
  const UPLOAD_ERR_INI_SIZE: int := 1
  const UPLOAD_ERR_FORM_SIZE: int := 2
  const UPLOAD_ERR_NO_FILE: int := 4

  /** $_FILES[field]['error']: not set, an array (several files), or one code. */
  datatype ErrorField = Unset | Several | Code(code: int)

  /** An uploaded file: its error field, its size and the SHA-1 of its contents. */
  datatype Upload = Upload(error: ErrorField, size: int, hash: string)

  /** Why an upload is refused; each is logged and answered with "error". */
  datatype UploadRejection = UnknownFileError | NoFileSent | InvalidFileSize | UnknownError | FileTooLarge

  /** The upload checks shared by question.php and answer.php, in their order. */
  function UploadRejected(u: Upload): (r: Option<UploadRejection>)
    ensures r.None? <==> u.error == Code(UPLOAD_ERR_OK) && u.size <= MAX_UPLOAD_SIZE
    ensures u.error.Unset? || u.error.Several? ==> r == Some(UnknownFileError)
    ensures u.error == Code(UPLOAD_ERR_NO_FILE) ==> r == Some(NoFileSent)
    ensures u.error == Code(UPLOAD_ERR_INI_SIZE) || u.error == Code(UPLOAD_ERR_FORM_SIZE) ==> r == Some(InvalidFileSize)
    ensures r == Some(FileTooLarge) <==> u.error == Code(UPLOAD_ERR_OK) && u.size > MAX_UPLOAD_SIZE
  {
    match u.error
    case Unset => Some(UnknownFileError)
    case Several => Some(UnknownFileError)
    case Code(c) =>
      if c == UPLOAD_ERR_OK then (if u.size > MAX_UPLOAD_SIZE then Some(FileTooLarge) else None)
      else if c == UPLOAD_ERR_NO_FILE then Some(NoFileSent)
      else if c == UPLOAD_ERR_INI_SIZE || c == UPLOAD_ERR_FORM_SIZE then Some(InvalidFileSize)
      else Some(UnknownError)
  }

  /** sha1_file: forty lower-case hexadecimal digits. */
  predicate Sha1Hex(h: string)
  {
    |h| == 40 && forall i :: 0 <= i < |h| ==> IsDigit(h[i]) || 'a' <= h[i] <= 'f'
  }

  // ---------------------------------------------------------------------
  // Patterns
  // ---------------------------------------------------------------------

  predicate EndsWith(s: string, suffix: string)
  {
    |suffix| <= |s| && s[|s| - |suffix|..] == suffix
  }

  /** prefix.*suffix matched from the start of s to its end. */
  predicate FromStart(s: string, prefix: string, suffix: string)
  {
    |prefix| + |suffix| <= |s| && s[..|prefix|] == prefix && EndsWith(s, suffix)
  }

  /** prefix.*suffix$ without ^: the prefix at some position, the suffix at the end. */
  predicate Anywhere(s: string, prefix: string, suffix: string)
    decreases |s|
  {
    FromStart(s, prefix, suffix) || (s != [] && Anywhere(s[1..], prefix, suffix))
  }

  /** \d{4}-.*suffix matched from the start of s to its end. */
  predicate FourDigitsFromStart(s: string, suffix: string)
  {
    5 + |suffix| <= |s| && AllDigits(s[..4]) && s[4] == '-' && EndsWith(s, suffix)
  }

  predicate FourDigitsAnywhere(s: string, suffix: string)
    decreases |s|
  {
    FourDigitsFromStart(s, suffix) || (s != [] && FourDigitsAnywhere(s[1..], suffix))
  }

  /** prefix\d+\.reserved matched from the start of s to its end. */
  predicate ReservationFromStart(s: string, prefix: string)
  {
    && |prefix| + 10 <= |s| && s[..|prefix|] == prefix && EndsWith(s, ".reserved")
    && AllDigits(s[|prefix|..|s| - 9])
  }

  /** \d{4}-\d+\.reserved$ without ^. */
  predicate FourDigitReservationAnywhere(s: string)
    decreases |s|
  {
    (|s| >= 5 && AllDigits(s[..4]) && ReservationFromStart(s[4..], "-"))
    || (s != [] && FourDigitReservationAnywhere(s[1..]))
  }

  /** The regular expressions the scripts grep with; an id is printed in decimal. */
  datatype Pattern =
    | Extension(ext: string)          // ~\.(mp3)$~
    | IdAnchored(id: int, ext: string) // /^<id>-.*\.<ext>$/
    | IdUnanchored(id: int, ext: string) // ~<id>-.*\.<ext>$~
    | FourDigits(ext: string)         // ~\d{4}-.*\.<ext>$~
    | ReservationOf(id: int)          // /^<id>-\d+\.reserved$/
    | AnyReservation                  // ~\d{4}-\d+\.reserved$~

  predicate Matches(name: string, p: Pattern)
  {
    match p
    case Extension(ext) => EndsWith(name, ext)
    case IdAnchored(id, ext) => FromStart(name, IntToString(id) + "-", ext)
    case IdUnanchored(id, ext) => Anywhere(name, IntToString(id) + "-", ext)
    case FourDigits(ext) => FourDigitsAnywhere(name, ext)
    case ReservationOf(id) => ReservationFromStart(name, IntToString(id) + "-")
    case AnyReservation => FourDigitReservationAnywhere(name)
  }

  /** preg_grep over a listing: the matching entries, in listing order. */
  function Grep(entries: seq<Entry>, p: Pattern): (r: seq<Entry>)
    ensures |r| <= |entries|
    ensures forall e :: e in r <==> e in entries && Matches(e.name, p)
  {
    if entries == [] then []
    else
      var init := Grep(entries[..|entries| - 1], p);
      var last := entries[|entries| - 1];
      assert entries == entries[..|entries| - 1] + [last];
      if Matches(last.name, p) then init + [last] else init
  }

  /** preg_grep finds nothing exactly when no entry matches. */
  lemma GrepEmpty(entries: seq<Entry>, p: Pattern)
    ensures Grep(entries, p) == [] <==> forall e :: e in entries ==> !Matches(e.name, p)
  {
    if Grep(entries, p) != [] {
      assert Grep(entries, p)[0] in Grep(entries, p);
    }
  }

  /** The names in a listing. */
  function Names(entries: seq<Entry>): set<string>
  {
    set e | e in entries :: e.name
  }

  // ---------------------------------------------------------------------
  // Stored names
  // ---------------------------------------------------------------------

  /** sprintf('%d-%s<ext>', id, sha1): the name an upload is stored under. */
  function StoredName(id: nat, hash: string, ext: string): string
  {
    NatToString(id) + "-" + hash + ext
  }

  /** The leading number of a name: intval(explode('-', name)[0]). */
  function LeadingNumber(name: string): int
  {
    PhpIntval(Field(name, '-', 0))
  }

  /** The leading number of each name, in order. */
  function LeadingNumbers(entries: seq<Entry>): seq<int>
  {
    seq(|entries|, i requires 0 <= i < |entries| => LeadingNumber(entries[i].name))
  }

  /** A number is among the leading numbers exactly when some entry's name starts with it. */
  lemma LeadingNumbersMeaning(entries: seq<Entry>, n: int)
    ensures n in LeadingNumbers(entries) <==> exists e :: e in entries && LeadingNumber(e.name) == n
  {
    var ns := LeadingNumbers(entries);
    if n in ns {
      var i :| 0 <= i < |ns| && ns[i] == n;
      assert entries[i] in entries;
    }
    if exists e :: e in entries && LeadingNumber(e.name) == n {
      var e :| e in entries && LeadingNumber(e.name) == n;
      var i :| 0 <= i < |entries| && entries[i] == e;
      assert ns[i] == n;
    }
  }

  /** A reservation file modified less than 240 seconds ago. */
  predicate Live(e: Entry, now: int)
  {
    now - e.mtime < QUESTION_RESERVATION_TIME
  }

  lemma NoDashInDigits(s: string)
    requires AllDigits(s)
    ensures '-' !in s
  {
    forall i | 0 <= i < |s| ensures s[i] != '-' {
      assert IsDigit(s[i]);
    }
  }

  /** A stored name gives its number back: the number is never reused by mistake. */
  lemma StoredNameNumber(id: nat, hash: string, ext: string)
    ensures Field(StoredName(id, hash, ext), '-', 0) == NatToString(id)
    ensures LeadingNumber(StoredName(id, hash, ext)) == id
  {
    NoDashInDigits(NatToString(id));
    assert StoredName(id, hash, ext) == NatToString(id) + ['-'] + (hash + ext);
    ExplodeFirst(NatToString(id), '-', hash + ext);
    PhpIntvalOfPrefix(id, []);
    assert NatToString(id) + [] == NatToString(id);
  }

  /** A stored name matches the anchored and unanchored patterns of its own id. */
  lemma StoredNameMatchesId(id: nat, hash: string, ext: string)
    ensures Matches(StoredName(id, hash, ext), IdAnchored(id, ext))
    ensures Matches(StoredName(id, hash, ext), IdUnanchored(id, ext))
  {
    var s := StoredName(id, hash, ext);
    var prefix := IntToString(id) + "-";
    assert s == prefix + hash + ext;
    assert s[..|prefix|] == prefix;
    assert s[|s| - |ext|..] == ext;
  }

  /** Numbers from 1000 to 9999 are printed with exactly four digits. */
  lemma FourDigitNumber(n: nat)
    requires 1000 <= n <= 9999
    ensures |NatToString(n)| == 4
  {
    var d := NatToString(n);
    NatToStringValue(n);
    DigitsValueBound(d);
    if |d| < 4 {
      Pow10Monotone(|d|, 3);
    }
    if |d| > 4 {
      LeadingDigitValue(d);
      Pow10Monotone(4, |d| - 1);
    }
  }

  /** A stored name with a four-digit number matches the listing patterns. */
  lemma StoredNameMatchesFourDigits(id: nat, hash: string, ext: string)
    requires 1000 <= id <= 9999
    ensures Matches(StoredName(id, hash, ext), FourDigits(ext))
  {
    var s := StoredName(id, hash, ext);
    FourDigitNumber(id);
    assert s[..4] == NatToString(id);
    assert s[4] == '-';
    assert s[|s| - |ext|..] == ext;
  }

  /** The name of an upload of a four-digit question, stored under its SHA-1. */
  ghost predicate StoredFourDigitName(name: string, ext: string)
  {
    exists id: nat, hash :: 1000 <= id <= 9999 && Sha1Hex(hash) && name == StoredName(id, hash, ext)
  }

  /** Every name in a listing that ends with the extension is a stored upload of a four-digit question. */
  ghost predicate StoredListing(entries: seq<Entry>, ext: string)
  {
    forall e :: e in entries && EndsWith(e.name, ext) ==> StoredFourDigitName(e.name, ext)
  }

  /** The name's only '-' is the fifth character. */
  predicate SoleDashAtFour(s: string)
  {
    forall i :: 0 <= i < |s| && s[i] == '-' ==> i == 4
  }

  /** A stored name of a four-digit question has its only '-' after the number. */
  lemma StoredNameSoleDash(id: nat, hash: string, ext: string)
    requires 1000 <= id <= 9999 && Sha1Hex(hash) && '-' !in ext
    ensures SoleDashAtFour(StoredName(id, hash, ext))
  {
    var s := StoredName(id, hash, ext);
    var q := NatToString(id);
    FourDigitNumber(id);
    NoDashInDigits(q);
    assert s == q + "-" + hash + ext;
    forall i | 0 <= i < |s| && i != 4 ensures s[i] != '-' {
      if i < 4 {
        assert s[i] == q[i];
      } else if i < 45 {
        assert s[i] == hash[i - 5];
        assert IsDigit(hash[i - 5]) || 'a' <= hash[i - 5] <= 'f';
      } else {
        assert s[i] == ext[i - 45];
      }
    }
  }

  /** A match of prefix.*suffix$ anywhere ends the name with the suffix. */
  lemma {:induction false} AnywhereEndsWith(s: string, prefix: string, suffix: string)
    requires Anywhere(s, prefix, suffix)
    ensures EndsWith(s, suffix)
    decreases |s|
  {
    if !FromStart(s, prefix, suffix) {
      AnywhereEndsWith(s[1..], prefix, suffix);
      assert s[1..][|s[1..]| - |suffix|..] == s[|s| - |suffix|..];
    }
  }

  /** With a single '-' at index 4, a five-character prefix ending in '-' matches nowhere after the start. */
  lemma {:induction false} NoLaterMatch(s: string, k: nat, prefix: string, suffix: string)
    requires SoleDashAtFour(s) && 1 <= k <= |s| && |prefix| == 5 && prefix[4] == '-'
    ensures !Anywhere(s[k..], prefix, suffix)
    decreases |s| - k
  {
    if FromStart(s[k..], prefix, suffix) {
      assert false;
    }
    if k < |s| {
      assert s[k..][1..] == s[k + 1..];
      NoLaterMatch(s, k + 1, prefix, suffix);
    }
  }

  /**
   * For a four-digit number, the unanchored pattern of responses.php and
   * answer.php finds the same names as the anchored one, on names whose only
   * '-' follows the leading number.
   */
  lemma UnanchoredIsAnchored(s: string, id: nat, ext: string)
    requires 1000 <= id <= 9999 && SoleDashAtFour(s)
    ensures Matches(s, IdUnanchored(id, ext)) <==> Matches(s, IdAnchored(id, ext))
  {
    var prefix := IntToString(id) + "-";
    FourDigitNumber(id);
    assert |prefix| == 5 && prefix[4] == '-';
    if s != [] {
      NoLaterMatch(s, 1, prefix, ext);
    }
  }

  /** On a listing of stored four-digit uploads, both patterns of a four-digit number find the same names. */
  lemma StoredListingPatternsAgree(entries: seq<Entry>, id: nat, ext: string, e: Entry)
    requires 1000 <= id <= 9999 && '-' !in ext && StoredListing(entries, ext) && e in entries
    ensures Matches(e.name, IdUnanchored(id, ext)) <==> Matches(e.name, IdAnchored(id, ext))
  {
    if EndsWith(e.name, ext) {
      var n: nat, h :| 1000 <= n <= 9999 && Sha1Hex(h) && e.name == StoredName(n, h, ext);
      StoredNameSoleDash(n, h, ext);
      UnanchoredIsAnchored(e.name, id, ext);
    } else if Matches(e.name, IdUnanchored(id, ext)) {
      AnywhereEndsWith(e.name, IntToString(id) + "-", ext);
    }
  }

  /** preg_grep with two patterns that agree on every entry finds the same entries. */
  lemma {:induction false} GrepAgree(entries: seq<Entry>, p: Pattern, q: Pattern)
    requires forall e :: e in entries ==> (Matches(e.name, p) <==> Matches(e.name, q))
    ensures Grep(entries, p) == Grep(entries, q)
  {
    if entries != [] {
      var init := entries[..|entries| - 1];
      assert forall e :: e in init ==> e in entries;
      GrepAgree(init, p, q);
      assert entries[|entries| - 1] in entries;
    }
  }

  /** The reservation file of a question for a requester: "<id>-<source>.reserved". */
  function ReservationName(id: nat, source: nat): string
  {
    NatToString(id) + "-" + NatToString(source) + ".reserved"
  }

  /** The requester a reservation file records: intval(explode('-', name)[1]). */
  function RecordedSource(name: string): int
  {
    PhpIntval(Field(name, '-', 1))
  }

  /** A reservation file records its requester and gives its question number back. */
  lemma ReservationNameFields(id: nat, source: nat)
    ensures RecordedSource(ReservationName(id, source)) == source
    ensures LeadingNumber(ReservationName(id, source)) == id
  {
    var q := NatToString(id);
    var src := NatToString(source);
    var tail := src + ".reserved";
    assert ReservationName(id, source) == q + ['-'] + tail;
    NoDashInDigits(q);
    NoDashInDigits(src);
    assert '-' !in tail by {
      forall i | 0 <= i < |tail| ensures tail[i] != '-' {
        if i >= |src| {
          assert tail[i] == ".reserved"[i - |src|];
        }
      }
    }
    ExplodeFirst(q, '-', tail);
    ExplodeNoSeparator(tail, '-');
    PhpIntvalOfPrefix(source, ".reserved");
    PhpIntvalOfPrefix(id, []);
    assert q + [] == q;
  }

  /** A reservation file is found by its question's pattern and, for a four-digit number, by the listing pattern. */
  lemma ReservationNameMatches(id: nat, source: nat)
    ensures Matches(ReservationName(id, source), ReservationOf(id))
    ensures 1000 <= id <= 9999 ==> Matches(ReservationName(id, source), AnyReservation)
  {
    var q := NatToString(id);
    var src := NatToString(source);
    var s := ReservationName(id, source);
    assert s[..|q| + 1] == q + "-";
    assert s[|s| - 9..] == ".reserved";
    assert s[|q| + 1..|s| - 9] == src;
    if 1000 <= id <= 9999 {
      FourDigitNumber(id);
      var r := s[4..];
      assert r == "-" + src + ".reserved";
      assert r[..1] == "-";
      assert r[|r| - 9..] == ".reserved";
      assert r[1..|r| - 9] == src;
      assert s[..4] == q;
    }
  }

  lemma {:induction false} Pow10Monotone(i: nat, j: nat)
    requires i <= j
    ensures Pow10(i) <= Pow10(j)
  {
    if i < j {
      Pow10Monotone(i, j - 1);
    }
  }

  /** A digit string that does not start with '0' is worth at least 10^(length-1). */
  lemma {:induction false} LeadingDigitValue(d: string)
    requires |d| >= 1 && AllDigits(d) && d[0] != '0'
    ensures DigitsValue(d) >= Pow10(|d| - 1)
  {
    if |d| > 1 {
      var init := d[..|d| - 1];
      assert init[0] == d[0];
      LeadingDigitValue(init);
      assert DigitsValue(d) == 10 * DigitsValue(init) + DigitValue(d[|d| - 1]);
    } else {
      assert DigitValue(d[0]) >= 1;
    }
  }
}
