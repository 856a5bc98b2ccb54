/**
 * The appliance's controller (Pss2): the names it gives question and answer
 * recordings and the patterns it finds them by, the search for a local file
 * of a question number, the reading of the server's responses to an upload
 * and to an answer request, what happens to a number typed on the keypad,
 * and the spoken playback of an allocated number digit by digit.
 *
 * The home directory is a listing of names; the HTTP exchanges become the
 * response body they deliver (None when the request failed or the response
 * was unsuccessful).
 */
module Appliance {
  import opened Common
  import opened Sounds

  /** An entry of the home directory listing. */
  datatype LocalFile = LocalFile(name: string, isFile: bool)

  /** QUESTION_FILE_PATTERN and ANSWER_FILE_PATTERN. */
  datatype FilePattern = QuestionPattern | AnswerPattern

  /** The word between the two numbers. */
  function Kind(p: FilePattern): string
  {
    match p
    case QuestionPattern => "question"
    case AnswerPattern => "answer"
  }

  /** The extensions the pattern accepts after the final '.'. */
  function Extensions(p: FilePattern): set<string>
  {
    match p
    case QuestionPattern => {"mp3"}
    case AnswerPattern => {"mp3", "m4a", "wav"}
  }

  /** What follows the second number: "_" + yyyy-MM-dd_HH-mm-ss + "." + extension. */
  predicate DatedTail(r: string, exts: set<string>)
  {
    |r| == 24 && r[0] == '_' && DateShape(r[1..20]) && r[20] == '.' && r[21..] in exts
  }

  /** The text between the two numbers. */
  function Separator(p: FilePattern): (sep: string)
    ensures |sep| >= 3 && sep[0] == '_'
  {
    "_" + Kind(p) + "_"
  }

  /**
   * A full match of `(\d+)_<kind>_(\d+)_(date)\.(ext)` and its group 1. The
   * groups of digits are each followed by '_', so each is the whole run of
   * digits where it starts: the match, when there is one, is unique.
   */
  function MatchId(name: string, p: FilePattern): (g: Option<string>)
    ensures g.Some? ==> |g.value| >= 1 && AllDigits(g.value) && g.value <= name
  {
    var g1 := LeadingDigits(name);
    if |g1| == 0 then None
    else
      var r1 := name[|g1|..];
      var sep := Separator(p);
      if !(sep <= r1) then None
      else
        var r2 := r1[|sep|..];
        var g2 := LeadingDigits(r2);
        if |g2| >= 1 && DatedTail(r2[|g2|..], Extensions(p)) then Some(g1) else None
  }

  /** A run of digits followed by a non-digit is read off as that run, leaving the rest. */
  lemma DigitsThen(d: string, rest: string)
    requires AllDigits(d) && rest != [] && !IsDigit(rest[0])
    ensures LeadingDigits(d + rest) == d && (d + rest)[|d|..] == rest
  {
    LeadingDigitsOfDigits(d, rest);
  }

  /** The date and extension of a recording's name make a dated tail. */
  lemma DatedTailOf(date: string, ext: string, exts: set<string>)
    requires DateShape(date) && ext in exts && |ext| == 3
    ensures DatedTail("_" + date + "." + ext, exts)
  {
    var tail := "_" + date + "." + ext;
    assert tail[1..20] == date;
    assert tail[21..] == ext;
  }

  /** A name made of the pattern's parts matches it, with its first number as group 1. */
  lemma MatchComposed(g: string, p: FilePattern, g2: string, tail: string)
    requires |g| >= 1 && AllDigits(g) && |g2| >= 1 && AllDigits(g2) && DatedTail(tail, Extensions(p))
    ensures MatchId(g + (Separator(p) + (g2 + tail)), p) == Some(g)
  {
    var sep := Separator(p);
    var r2 := g2 + tail;
    var r1 := sep + r2;
    DigitsThen(g, r1);
    assert r1[|sep|..] == r2;
    DigitsThen(g2, tail);
  }

  /** Every matching name ends in one of the pattern's extensions. */
  lemma MatchEndsInExtension(name: string, p: FilePattern)
    requires MatchId(name, p).Some?
    ensures |name| >= 3 && name[|name| - 3..] in Extensions(p)
  {
    var g1 := LeadingDigits(name);
    var r1 := name[|g1|..];
    var r2 := r1[|Separator(p)|..];
    var g2 := LeadingDigits(r2);
    var r3 := r2[|g2|..];
    assert r3 == name[|name| - 24..];
    assert r3[21..] == name[|name| - 3..];
  }

  /** A name with ".old" appended matches neither pattern. */
  lemma ArchivedNameUnmatched(name: string, p: FilePattern)
    ensures MatchId(name + ".old", p).None?
  {
    var s := name + ".old";
    assert s[|s| - 3..] == "old";
    if MatchId(s, p).Some? {
      MatchEndsInExtension(s, p);
    }
  }

  /**
   * QUESTION_FILE_FORMAT and ANSWER_FILE_FORMAT, "%d_question_%s" and
   * "%d_answer_%s": the number in front of the recording's or download's own
   * timestamped name.
   */
  function NumberedFileName(n: int, p: FilePattern, timestamped: string): string
  {
    IntToString(n) + Separator(p) + timestamped
  }

  /** A timestamped name is the millisecond count followed by a dated tail. */
  lemma TimestampNameParts(c: Clock, ext: string, exts: set<string>)
    requires ValidDateTime(c.date) && c.date.year < 10000 && |ext| == 4 && ext[0] == '.' && ext[1..] in exts
    ensures TimestampName(c, ext) == NatToString(c.millis) + ("_" + FormatDate(c.date) + ext)
    ensures DatedTail("_" + FormatDate(c.date) + ext, exts)
  {
    FormatDateShape(c.date);
    var tail := "_" + FormatDate(c.date) + ext;
    assert tail[1..20] == FormatDate(c.date);
    assert tail[21..] == ext[1..];
  }

  /**
   * The name a recording gets once it has a number is found again by that
   * number: it matches the pattern and its group 1 parses to the number.
   * For questions the extension is ".mp3"; answers may also be ".m4a" or
   * ".wav".
   */
  lemma NumberedNameRoundTrip(n: int, p: FilePattern, c: Clock, ext: string)
    requires 0 <= n <= INT_MAX && ValidDateTime(c.date) && c.date.year < 10000
    requires |ext| == 4 && ext[0] == '.' && ext[1..] in Extensions(p)
    ensures MatchId(NumberedFileName(n, p, TimestampName(c, ext)), p) == Some(NatToString(n))
    ensures JavaParseInt(NatToString(n)) == Some(n)
  {
    TimestampNameParts(c, ext, Extensions(p));
    var tail := "_" + FormatDate(c.date) + ext;
    assert NumberedFileName(n, p, TimestampName(c, ext))
        == NatToString(n) + (Separator(p) + (NatToString(c.millis) + tail));
    MatchComposed(NatToString(n), p, NatToString(c.millis), tail);
    JavaParseIntRoundTrip(n);
  }

  /** A regular file whose name matches the pattern fully and whose group 1 parses to the id. */
  predicate Hit(f: LocalFile, p: FilePattern, id: int)
  {
    f.isFile && MatchId(f.name, p).Some? && JavaParseInt(MatchId(f.name, p).value) == Some(id)
  }

  /** The index of the first hit among the files, if there is one. */
  function FirstHit(files: seq<LocalFile>, p: FilePattern, id: int): (k: Option<nat>)
    ensures k.None? <==> forall i :: 0 <= i < |files| ==> !Hit(files[i], p, id)
    ensures k.Some? ==>
              && k.value < |files| && Hit(files[k.value], p, id)
              && forall i :: 0 <= i < k.value ==> !Hit(files[i], p, id)
  {
    var hits := seq(|files|, i requires 0 <= i < |files| => Hit(files[i], p, id));
    assert forall i :: 0 <= i < |files| ==> hits[i] == Hit(files[i], p, id);
    FirstTrue(hits, 0)
  }

  /** The first position at or after j that holds true. */
  function FirstTrue(b: seq<bool>, j: nat): (k: Option<nat>)
    requires j <= |b|
    ensures k.None? <==> forall i :: j <= i < |b| ==> !b[i]
    ensures k.Some? ==> j <= k.value < |b| && b[k.value] && forall i :: j <= i < k.value ==> !b[i]
    decreases |b| - j
  {
    if j == |b| then None
    else if b[j] then Some(j)
    else FirstTrue(b, j + 1)
  }

  /** An index that is a hit with no hit before it is the first hit. */
  lemma FirstHitAt(files: seq<LocalFile>, p: FilePattern, id: int, k: nat)
    requires k < |files| && Hit(files[k], p, id) && forall i :: 0 <= i < k ==> !Hit(files[i], p, id)
    ensures FirstHit(files, p, id) == Some(k)
  {
  }

  /**
   * getLocalAudioFile: the first entry of the listing that is a hit; None
   * when there is none or the directory could not be listed.
   */
  method GetLocalAudioFile(listing: Option<seq<LocalFile>>, p: FilePattern, localId: int) returns (found: Option<nat>)
    ensures found == (if listing.None? then None else FirstHit(listing.value, p, localId))
    ensures found.None? <==> listing.None? || forall i :: 0 <= i < |listing.value| ==> !Hit(listing.value[i], p, localId)
    ensures found.Some? ==>
              && listing.Some? && found.value < |listing.value| && Hit(listing.value[found.value], p, localId)
              && forall i :: 0 <= i < found.value ==> !Hit(listing.value[i], p, localId)
  {
    if listing.None? {
      return None;
    }
    var files := listing.value;
    for i := 0 to |files|
      invariant forall k :: 0 <= k < i ==> !Hit(files[k], p, localId)
    {
      if Hit(files[i], p, localId) {
        FirstHitAt(files, p, localId, i);
        return Some(i);
      }
    }
    return None;
  }

  /** A renaming in the home directory. */
  datatype Rename = Rename(from: string, to: string)

  /** The name an older file of a reused number is moved to: ".<millis>.old" appended. */
  function ArchivedName(name: string, millis: nat): string
  {
    name + "." + NatToString(millis) + ".old"
  }

  /** Neither pattern finds an archived file again. */
  lemma ArchivedNameHidden(name: string, millis: nat)
    ensures MatchId(ArchivedName(name, millis), QuestionPattern).None?
    ensures MatchId(ArchivedName(name, millis), AnswerPattern).None?
  {
    assert ArchivedName(name, millis) == (name + "." + NatToString(millis)) + ".old";
    ArchivedNameUnmatched(name + "." + NatToString(millis), QuestionPattern);
    ArchivedNameUnmatched(name + "." + NatToString(millis), AnswerPattern);
  }

  /** `name` is the name of a local question or answer file of number n. */
  predicate OfNumber(files: seq<LocalFile>, name: string, n: int)
  {
    exists k :: 0 <= k < |files| && files[k].name == name && (Hit(files[k], QuestionPattern, n) || Hit(files[k], AnswerPattern, n))
  }

  /** An archiving: a file of number n renamed to a name neither pattern matches. */
  predicate Archives(files: seq<LocalFile>, r: Rename, n: int, millis: nat)
  {
    && r.to == ArchivedName(r.from, millis) && OfNumber(files, r.from, n)
    && MatchId(r.to, QuestionPattern).None? && MatchId(r.to, AnswerPattern).None?
  }

  /** Some entry of the listing is a file of number n for the pattern. */
  predicate HasHit(files: seq<LocalFile>, p: FilePattern, n: int)
  {
    exists k :: 0 <= k < |files| && Hit(files[k], p, n)
  }

  /** Renaming a file of number n to its archived name is an archiving. */
  lemma HitArchived(files: seq<LocalFile>, k: nat, p: FilePattern, n: int, millis: nat)
    requires k < |files| && Hit(files[k], p, n)
    ensures Archives(files, Rename(files[k].name, ArchivedName(files[k].name, millis)), n, millis)
  {
    ArchivedNameHidden(files[k].name, millis);
    assert Hit(files[k], QuestionPattern, n) || Hit(files[k], AnswerPattern, n);
  }

  /**
   * The archiving getLocalAudioFile leads to: the first local file of number
   * n the pattern finds renamed to its archived name, or nothing.
   */
  function ArchiveOf(listing: Option<seq<LocalFile>>, p: FilePattern, n: int, millis: nat): seq<Rename>
  {
    if listing.None? then []
    else
      match FirstHit(listing.value, p, n)
      case None => []
      case Some(k) => [Rename(listing.value[k].name, ArchivedName(listing.value[k].name, millis))]
  }

  /** 1 when the listing holds a file of number n for the pattern, 0 otherwise. */
  function HitCount(listing: Option<seq<LocalFile>>, p: FilePattern, n: int): nat
  {
    if listing.Some? && HasHit(listing.value, p, n) then 1 else 0
  }

  /** There is an archiving exactly when the listing holds a file of number n. */
  lemma ArchiveOfCount(listing: Option<seq<LocalFile>>, p: FilePattern, n: int, millis: nat)
    ensures |ArchiveOf(listing, p, n, millis)| == HitCount(listing, p, n)
  {
    if listing.Some? {
      match FirstHit(listing.value, p, n)
      case None =>
      case Some(k) =>
        assert Hit(listing.value[k], p, n);
    }
  }

  /** With a first hit, the archiving renames that file to its archived name. */
  lemma ArchiveOfFirstHit(listing: Option<seq<LocalFile>>, p: FilePattern, n: int, millis: nat, k: nat)
    requires listing.Some? && FirstHit(listing.value, p, n) == Some(k)
    ensures ArchiveOf(listing, p, n, millis) == [Rename(listing.value[k].name, ArchivedName(listing.value[k].name, millis))]
  {
  }

  /** The archiving of the first local file of number n the pattern finds, if there is one. */
  method ArchiveExisting(listing: Option<seq<LocalFile>>, p: FilePattern, n: int, millis: nat) returns (renames: seq<Rename>)
    ensures renames == ArchiveOf(listing, p, n, millis)
    ensures |renames| == HitCount(listing, p, n) <= 1
    ensures |renames| == 1 ==> listing.Some? && Archives(listing.value, renames[0], n, millis) && MatchId(renames[0].from, p).Some?
  {
    var existing := GetLocalAudioFile(listing, p, n);
    ArchiveOfCount(listing, p, n, millis);
    if existing.None? {
      return [];
    }
    var k := existing.value;
    var name := listing.value[k].name;
    renames := [Rename(name, ArchivedName(name, millis))];
    ArchiveOfFirstHit(listing, p, n, millis, k);
    HitArchived(listing.value, k, p, n, millis);
  }

  /**
   * The renamings made once the server has numbered a question: the older
   * local question of that number, then its older answer, are archived, and
   * then the recording takes its numbered name.
   */
  method RenameForNumber(listing: Option<seq<LocalFile>>, recorded: string, n: int, millis: nat) returns (renames: seq<Rename>)
    ensures renames == ArchiveOf(listing, QuestionPattern, n, millis) + ArchiveOf(listing, AnswerPattern, n, millis)
                       + [Rename(recorded, NumberedFileName(n, QuestionPattern, recorded))]
    ensures |renames| == 1 + HitCount(listing, QuestionPattern, n) + HitCount(listing, AnswerPattern, n)
    ensures listing.Some? ==> forall i :: 0 <= i < |renames| - 1 ==> Archives(listing.value, renames[i], n, millis)
    ensures listing.Some? && HasHit(listing.value, QuestionPattern, n) ==> MatchId(renames[0].from, QuestionPattern).Some?
    ensures listing.Some? && HasHit(listing.value, AnswerPattern, n) ==>
              MatchId(renames[|renames| - 2].from, AnswerPattern).Some?
  {
    var questions := ArchiveExisting(listing, QuestionPattern, n, millis);
    var answers := ArchiveExisting(listing, AnswerPattern, n, millis);
    renames := questions + answers + [Rename(recorded, NumberedFileName(n, QuestionPattern, recorded))];
    JoinedRenames(questions, answers, renames[|renames| - 1]);
    if listing.Some? {
      forall i | 0 <= i < |renames| - 1
        ensures Archives(listing.value, renames[i], n, millis)
      {
        if i < |questions| {
          assert renames[i] == questions[0];
        } else {
          assert renames[i] == answers[0];
        }
      }
    }
  }

  /** Where the archivings and the final renaming sit in their concatenation. */
  lemma JoinedRenames(questions: seq<Rename>, answers: seq<Rename>, last: Rename)
    requires |questions| <= 1 && |answers| <= 1
    ensures var all := questions + answers + [last];
            && (forall i :: 0 <= i < |questions| ==> all[i] == questions[0])
            && (forall i :: |questions| <= i < |all| - 1 ==> all[i] == answers[0])
            && (|answers| == 1 ==> all[|all| - 2] == answers[0])
  {
  }

  /** What the appliance makes of the server's answer to an upload. */
  datatype UploadOutcome =
    | UploadFailed                            // onError: the error prompt
    | UploadCrashed                           // an ArrayIndexOutOfBoundsException leaves onResponse
    | UploadAccepted(number: int, url: string)

  /** The value of group 1 of the response, or 0 where Integer.parseInt throws. */
  function ParsedOrZero(s: string): int
  {
    match JavaParseInt(s)
    case Some(v) => v
    case None => 0
  }

  /**
   * The upload response: "error" fails; otherwise the text before the first
   * ',' must parse to a positive number, and the text after it is read
   * whether or not there is any.
   */
  function ParseUploadResponse(body: Option<string>): (r: UploadOutcome)
    ensures body.None? || body == Some("error") ==> r == UploadFailed
    ensures r == UploadCrashed ==> body.Some? && |JavaSplit(body.value, ',')| < 2
    ensures r == UploadFailed && body.Some? && body.value != "error" ==>
              var parts := JavaSplit(body.value, ',');
              |parts| >= 1 && !(JavaParseInt(parts[0]).Some? && JavaParseInt(parts[0]).value > 0)
  {
    if body.None? || body.value == "error" then UploadFailed
    else
      var parts := JavaSplit(body.value, ',');
      if |parts| == 0 then UploadCrashed
      else if ParsedOrZero(parts[0]) <= 0 then UploadFailed
      else if |parts| < 2 then UploadCrashed
      else UploadAccepted(ParsedOrZero(parts[0]), parts[1])
  }

  /** An accepted upload carries a positive number that is exactly what the response's first field says. */
  lemma UploadAcceptedMeaning(body: Option<string>)
    requires ParseUploadResponse(body).UploadAccepted?
    ensures body.Some? && body.value != "error"
    ensures var parts := JavaSplit(body.value, ',');
            |parts| >= 2 && ParseUploadResponse(body).number > 0
            && JavaParseInt(parts[0]) == Some(ParseUploadResponse(body).number) && ParseUploadResponse(body).url == parts[1]
  {
  }

  /** The response "<n>,<url>" of a successful upload is accepted with that number and address. */
  lemma UploadResponseRoundTrip(n: nat, url: string)
    requires 0 < n <= INT_MAX && url != [] && ',' !in url
    ensures ParseUploadResponse(Some(NatToString(n) + "," + url)) == UploadAccepted(n, url)
  {
    assert ',' !in NatToString(n) by {
      forall i | 0 <= i < |NatToString(n)| ensures NatToString(n)[i] != ',' {
        assert IsDigit(NatToString(n)[i]);
      }
    }
    JavaSplitPair(NatToString(n), ',', url);
    JavaParseIntRoundTrip(n);
  }

  /** The first field alone, with nothing after the comma, is read past its end. */
  lemma UploadResponseWithoutAddress(n: nat)
    requires 0 < n <= INT_MAX
    ensures ParseUploadResponse(Some(NatToString(n))) == UploadCrashed
  {
    assert ',' !in NatToString(n) by {
      forall i | 0 <= i < |NatToString(n)| ensures NatToString(n)[i] != ',' {
        assert IsDigit(NatToString(n)[i]);
      }
    }
    JavaParseIntRoundTrip(n);
  }

  /** What getAndPlayAnswer does with a number typed on the keypad, before any request. */
  datatype AnswerAction = PlayHint | PlayCached(file: nat) | AskServer

  /**
   * getAndPlayAnswer's dispatch: 1234 plays the local hint without looking
   * anything up; otherwise a cached answer is played if there is one, and
   * only then is the server asked.
   */
  method GetAndPlayAnswer(n: int, listing: Option<seq<LocalFile>>) returns (action: AnswerAction)
    ensures action == PlayHint <==> n == 1234
    ensures action.PlayCached? ==>
              && listing.Some? && action.file < |listing.value| && Hit(listing.value[action.file], AnswerPattern, n)
              && forall i :: 0 <= i < action.file ==> !Hit(listing.value[i], AnswerPattern, n)
    ensures action == AskServer <==>
              n != 1234 && (listing.None? || forall i :: 0 <= i < |listing.value| ==> !Hit(listing.value[i], AnswerPattern, n))
  {
    if n == 1234 {
      return PlayHint;
    }
    var local := GetLocalAudioFile(listing, AnswerPattern, n);
    if local.Some? {
      return PlayCached(local.value);
    }
    return AskServer;
  }

  /** What the appliance does with the server's reply to an answer request. */
  datatype AnswerOutcome =
    | PlayAnswerError          // not ready, request failed, or a different question's answer
    | PlayQuestionNotFound
    | AnswerCrashed            // the second field is read before anything is checked
    | Download(url: string)

  /**
   * The answer response: "unanswered" is not ready, "error" is an unknown
   * question; anything else is split at ',' and its second field read at
   * once; it is downloaded when the first field is the number asked for.
   */
  function ParseAnswerResponse(requested: int, body: Option<string>): (r: AnswerOutcome)
    ensures body.None? || body == Some("unanswered") ==> r == PlayAnswerError
    ensures r == PlayQuestionNotFound <==> body == Some("error")
    ensures r == AnswerCrashed <==>
              body.Some? && body.value != "unanswered" && body.value != "error" && |JavaSplit(body.value, ',')| < 2
  {
    if body.None? || body.value == "unanswered" then PlayAnswerError
    else if body.value == "error" then PlayQuestionNotFound
    else
      var parts := JavaSplit(body.value, ',');
      if |parts| < 2 then AnswerCrashed
      else if ParsedOrZero(parts[0]) == requested then Download(parts[1])
      else PlayAnswerError
  }

  /** Only the answer to the question asked for is downloaded. */
  lemma DownloadMeaning(requested: int, body: Option<string>)
    requires requested != 0 && ParseAnswerResponse(requested, body).Download?
    ensures body.Some? && body.value != "unanswered" && body.value != "error"
    ensures var parts := JavaSplit(body.value, ',');
            |parts| >= 2 && JavaParseInt(parts[0]) == Some(requested) && ParseAnswerResponse(requested, body).url == parts[1]
  {
  }

  /** The reply "<id>,<url>" for the question asked for starts the download of that address; for another question it does not. */
  lemma AnswerResponseRoundTrip(requested: int, id: nat, url: string)
    requires 0 < id <= INT_MAX && url != [] && ',' !in url
    ensures ParseAnswerResponse(requested, Some(NatToString(id) + "," + url)) ==
              if requested == id then Download(url) else PlayAnswerError
  {
    assert ',' !in NatToString(id) by {
      forall i | 0 <= i < |NatToString(id)| ensures NatToString(id)[i] != ',' {
        assert IsDigit(NatToString(id)[i]);
      }
    }
    JavaSplitPair(NatToString(id), ',', url);
    JavaParseIntRoundTrip(id);
  }

  /** Character.getNumericValue for the characters of a rendered int: the digit, or -1 for '-'. */
  function NumericValue(c: char): int
  {
    if IsDigit(c) then DigitValue(c) else -1
  }

  /** String.valueOf(n).chars().map(Character::getNumericValue) */
  function DigitsOf(n: int): (d: seq<int>)
    ensures |d| == |IntToString(n)| >= 1
  {
    var s := IntToString(n);
    seq(|s|, i requires 0 <= i < |s| => NumericValue(s[i]))
  }

  /** For a number that is not negative: its decimal digits, most significant first, which spell NatToString(n). */
  lemma DigitsOfNat(n: nat)
    ensures |DigitsOf(n)| == |NatToString(n)|
    ensures forall i :: 0 <= i < |DigitsOf(n)| ==> 0 <= DigitsOf(n)[i] <= 9 && DigitChar(DigitsOf(n)[i]) == NatToString(n)[i]
  {
    var s := NatToString(n);
    assert IntToString(n) == s;
    var d := DigitsOf(n);
    forall i | 0 <= i < |d| ensures 0 <= d[i] <= 9 && DigitChar(d[i]) == s[i] {
      assert IsDigit(s[i]);
      assert d[i] == DigitValue(s[i]);
    }
  }

  /** A prompt played by the number callback, and whether the final callback is attached to it. */
  datatype Play = Play(sound: Sound, final: bool)

  /**
   * The prompts the first k completions play: digit i for the i-th, the
   * last digit again for every completion after it, the final callback
   * attached from the last digit on.
   */
  function PlaysOf(digits: seq<int>, k: nat): seq<Play>
    requires |digits| >= 1
  {
    seq(k, i requires 0 <= i < k =>
      Play(SoundForNumber(digits[if i < |digits| - 1 then i else |digits| - 1]), i >= |digits| - 1))
  }

  /** For a number, the first |digits| completions speak each digit once, in order, the last one with the final callback. */
  lemma PlaysSpellNumber(n: nat)
    ensures var plays := PlaysOf(DigitsOf(n), |DigitsOf(n)|);
            && |plays| == |NatToString(n)|
            && forall i :: 0 <= i < |plays| ==>
                 SoundName(plays[i].sound) == "number_" + [NatToString(n)[i]] && (plays[i].final <==> i == |plays| - 1)
  {
    DigitsOfNat(n);
    var d := DigitsOf(n);
    forall i | 0 <= i < |d| ensures SoundName(PlaysOf(d, |d|)[i].sound) == "number_" + [NatToString(n)[i]] {
      assert PlaysOf(d, |d|)[i].sound == SoundForNumber(d[i]);
    }
  }

  /** Pss2.NumberPlaybackCallback, with the prompts it asks the sound player to play. */
  class NumberPlaybackCallback {
    var digits: seq<int>
    var digitPosition: int
    /** The prompts requested since initialise, with whether the final callback goes with each. */
    var played: seq<Play>

    ghost predicate Valid()
      reads this
    {
      && |digits| >= 1 && 0 <= digitPosition < |digits|
      && digitPosition == (if |played| < |digits| - 1 then |played| else |digits| - 1)
      && played == PlaysOf(digits, |played|)
    }

    /**
     * The Java field holding the digits starts out null. The model stands [0] in for it, so that
     * Valid() holds from the start. No caller plays the callback before initialise: the upload
     * handler initialises it before it starts the prompt chain that ends in it.
     */
    constructor ()
      ensures Valid() && digits == [0] && played == []
    {
      digits := [0];
      digitPosition := 0;
      played := [];
    }

    /** initialise: the digits of the number, from the first. */
    method Initialise(questionNumber: int)
      modifies this
      ensures Valid() && digits == DigitsOf(questionNumber) && digitPosition == 0 && played == []
    {
      digits := DigitsOf(questionNumber);
      digitPosition := 0;
      played := [];
    }

    /** onPlaybackCompleted: the current digit is played; every digit but the last carries this callback and moves on. */
    method OnPlaybackCompleted() returns (play: Play)
      requires Valid()
      modifies this`digitPosition, this`played
      ensures Valid() && digits == old(digits)
      ensures played == old(played) + [play]
      ensures play == PlaysOf(digits, |played|)[|played| - 1]
    {
      if digitPosition < |digits| - 1 {
        play := Play(SoundForNumber(digits[digitPosition]), false);
        digitPosition := digitPosition + 1;
      } else {
        play := Play(SoundForNumber(digits[digitPosition]), true);
      }
      played := played + [play];
    }
  }
}
