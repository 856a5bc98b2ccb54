/**
 * The question upload endpoint (question.php): an appliance posts a recorded
 * question with its key; the server picks a four-digit question number no
 * stored question uses, stores the recording as "<n>-<sha1>.mp3" in the
 * question directory and replies "<n>,<url>".
 *
 * The random draws of mt_rand(0, 8999) are an input sequence; when it runs
 * out before an unused number is drawn the script is taken never to finish.
 */
module QuestionApi {
  import opened Common
  import opened ServerCommon
  import Appliance

  /** The first number the search draws from, and the helper question's number. */
  const STARTING_NUMBER: nat := 1000
  const HELPER_QUESTION: nat := 1234
  /** mt_rand(0, $length - ($startingNumber + 1)) with $length = 10^(log10(1000) + 1) = 10000. */
  const LARGEST_DRAW: nat := 8999

  /** $usedNumbers: 0, 1234, then the leading number of every stored ".mp3" question. */
  function UsedNumbers(listing: seq<Entry>): seq<int>
  {
    [0, HELPER_QUESTION] + LeadingNumbers(Grep(listing, Extension(".mp3")))
  }

  /** A number is used exactly when it is 0, 1234 or the leading number of a stored question. */
  lemma UsedNumbersMeaning(listing: seq<Entry>, n: int)
    ensures n in UsedNumbers(listing) <==>
              n == 0 || n == HELPER_QUESTION || exists e :: e in listing && EndsWith(e.name, ".mp3") && LeadingNumber(e.name) == n
  {
    var files := Grep(listing, Extension(".mp3"));
    LeadingNumbersMeaning(files, n);
    assert UsedNumbers(listing) == [0, HELPER_QUESTION] + LeadingNumbers(files);
    assert n in UsedNumbers(listing) <==> n == 0 || n == HELPER_QUESTION || n in LeadingNumbers(files);
    if exists e :: e in listing && EndsWith(e.name, ".mp3") && LeadingNumber(e.name) == n {
      var e :| e in listing && EndsWith(e.name, ".mp3") && LeadingNumber(e.name) == n;
      assert e in files;
    }
  }

  /** The question loop: the used numbers collected from the question directory. */
  method CollectUsedNumbers(listing: seq<Entry>) returns (used: seq<int>)
    ensures used == UsedNumbers(listing)
  {
    var questionFiles := Grep(listing, Extension(".mp3"));
    used := [0, HELPER_QUESTION];
    for i := 0 to |questionFiles|
      invariant used == [0, HELPER_QUESTION] + LeadingNumbers(questionFiles[..i])
    {
      assert questionFiles[..i + 1] == questionFiles[..i] + [questionFiles[i]];
      used := used + [LeadingNumber(questionFiles[i].name)];
    }
    assert questionFiles[..|questionFiles|] == questionFiles;
  }

  /** Every draw is one mt_rand(0, 8999) can return. */
  predicate DrawsInRange(draws: seq<nat>)
  {
    forall i :: 0 <= i < |draws| ==> draws[i] <= LARGEST_DRAW
  }

  /**
   * The number the redrawing loop settles on, starting from `current`: the
   * first of current, then 1000 plus each draw, that is not used; None when
   * the draws run out first.
   */
  function Allocation(used: seq<int>, current: nat, draws: seq<nat>): (r: Option<nat>)
    ensures r.Some? ==> r.value !in used
    ensures r.Some? && DrawsInRange(draws) && current <= LARGEST_DRAW + STARTING_NUMBER ==> r.value <= LARGEST_DRAW + STARTING_NUMBER
    decreases |draws|
  {
    if current !in used then Some(current)
    else if draws == [] then None
    else Allocation(used, draws[0] + STARTING_NUMBER, draws[1..])
  }

  /** The while loop that redraws the question number until it is unused. */
  method AllocateNumber(used: seq<int>, draws: seq<nat>) returns (number: Option<nat>)
    ensures number == Allocation(used, 0, draws)
  {
    var current: nat := 0;
    var k := 0;
    assert draws[0..] == draws;
    while current in used
      invariant 0 <= k <= |draws|
      invariant Allocation(used, 0, draws) == Allocation(used, current, draws[k..])
      decreases |draws| - k
    {
      if k == |draws| {
        return None;
      }
      assert draws[k..][1..] == draws[k + 1..];
      current := draws[k] + STARTING_NUMBER;
      k := k + 1;
    }
    return Some(current);
  }

  /** The number settled on is unused, and is the starting value or one of the drawn numbers. */
  lemma {:induction false} AllocationUnused(used: seq<int>, current: nat, draws: seq<nat>)
    requires Allocation(used, current, draws).Some?
    ensures Allocation(used, current, draws).value !in used
    ensures var n := Allocation(used, current, draws).value;
            n == current || exists i :: 0 <= i < |draws| && n == draws[i] + STARTING_NUMBER
    decreases |draws|
  {
    if current in used {
      AllocationUnused(used, draws[0] + STARTING_NUMBER, draws[1..]);
      var n := Allocation(used, current, draws).value;
      if n != draws[0] + STARTING_NUMBER {
        var i :| 0 <= i < |draws[1..]| && n == draws[1..][i] + STARTING_NUMBER;
        assert n == draws[i + 1] + STARTING_NUMBER;
      }
    }
  }

  /** The loop runs out of draws exactly when the start and every drawn number are used. */
  lemma {:induction false} AllocationNone(used: seq<int>, current: nat, draws: seq<nat>)
    ensures Allocation(used, current, draws).None? <==>
              current in used && forall i :: 0 <= i < |draws| ==> draws[i] + STARTING_NUMBER in used
    decreases |draws|
  {
    if current in used && draws != [] {
      AllocationNone(used, draws[0] + STARTING_NUMBER, draws[1..]);
      if forall i :: 0 <= i < |draws[1..]| ==> draws[1..][i] + STARTING_NUMBER in used {
        forall i | 1 <= i < |draws| ensures draws[i] + STARTING_NUMBER in used {
          assert draws[i] == draws[1..][i - 1];
        }
      }
    }
  }

  /**
   * A question number is four digits, never 0 or 1234, and never the number
   * of a question already stored in the directory.
   */
  lemma AllocatedNumberFresh(listing: seq<Entry>, draws: seq<nat>)
    requires DrawsInRange(draws) && Allocation(UsedNumbers(listing), 0, draws).Some?
    ensures var n := Allocation(UsedNumbers(listing), 0, draws).value;
            && STARTING_NUMBER <= n <= 9999 && n != HELPER_QUESTION
            && forall e :: e in listing && EndsWith(e.name, ".mp3") ==> LeadingNumber(e.name) != n
  {
    var used := UsedNumbers(listing);
    var n := Allocation(used, 0, draws).value;
    AllocationUnused(used, 0, draws);
    assert used[0] == 0 && used[1] == HELPER_QUESTION;
    UsedNumbersMeaning(listing, n);
  }

  /** When every four-digit number is used, no draw ever ends the loop: the request never finishes. */
  lemma AllNumbersUsedHangs(listing: seq<Entry>, draws: seq<nat>)
    requires DrawsInRange(draws)
    requires forall n :: STARTING_NUMBER <= n <= 9999 ==> n in UsedNumbers(listing)
    ensures Allocation(UsedNumbers(listing), 0, draws).None?
  {
    var used := UsedNumbers(listing);
    assert used[0] == 0;
    forall i | 0 <= i < |draws| ensures draws[i] + STARTING_NUMBER in used {
      assert STARTING_NUMBER <= draws[i] + STARTING_NUMBER <= 9999;
    }
    AllocationNone(used, 0, draws);
  }

  /** A stored question's name gives its number back, so that number counts as used from then on. */
  lemma StoredQuestionCounted(listing: seq<Entry>, n: nat, hash: string, mtime: int)
    requires Entry(StoredName(n, hash, ".mp3"), mtime) in listing
    ensures n in UsedNumbers(listing)
  {
    var e := Entry(StoredName(n, hash, ".mp3"), mtime);
    StoredNameNumber(n, hash, ".mp3");
    var s := e.name;
    assert s[|s| - 4..] == ".mp3";
    UsedNumbersMeaning(listing, n);
  }

  /** So a number handed out once is never handed out again while its question is stored. */
  lemma NumberNeverReused(listing: seq<Entry>, draws: seq<nat>, m: nat, hash: string, mtime: int)
    requires Entry(StoredName(m, hash, ".mp3"), mtime) in listing
    requires Allocation(UsedNumbers(listing), 0, draws).Some?
    ensures Allocation(UsedNumbers(listing), 0, draws).value != m
  {
    StoredQuestionCounted(listing, m, hash, mtime);
    AllocationUnused(UsedNumbers(listing), 0, draws);
  }

  /** The name an existing file is moved aside to: ".<ms>.old" appended. */
  function ArchiveName(name: string, millis: nat): string
  {
    name + "." + NatToString(millis) + ".old"
  }

  /** An archived question no longer ends in ".mp3", so the used numbers no longer see it. */
  lemma ArchivedQuestionIgnored(name: string, millis: nat)
    ensures !Matches(ArchiveName(name, millis), Extension(".mp3"))
    ensures ArchiveName(name, millis) != name
  {
    var s := ArchiveName(name, millis);
    assert s[|s| - 4..] == ".old";
  }

  /**
   * question.php: the key, the number, the upload checks, then the stored
   * name, moving aside a file of that name if there is one, moving the
   * upload into place and replying "<n>,<url>". `nameTaken` is
   * file_exists, `millis` the time, `moved` whether move_uploaded_file
   * succeeded.
   */
  method HandleQuestion(cfg: Config, key: Option<string>, listing: seq<Entry>, draws: seq<nat>,
                        upload: Upload, nameTaken: bool, millis: nat, moved: bool)
    returns (reply: Reply, ops: seq<FileOp>)
    ensures !KeyAccepted(cfg.applianceKey, key) ==> reply == Echo("error") && ops == []
    ensures KeyAccepted(cfg.applianceKey, key) ==>
              var number := Allocation(UsedNumbers(listing), 0, draws);
              && (number.None? ==> reply == Hangs && ops == [])
              && (number.Some? && UploadRejected(upload).Some? ==> reply == Echo("error") && ops == [])
              && (number.Some? && UploadRejected(upload).None? ==>
                    var name := cfg.questionDir + StoredName(number.value, upload.hash, ".mp3");
                    var archive := if nameTaken then [Rename(name, ArchiveName(name, millis))] else [];
                    && (moved ==> reply == Echo(NatToString(number.value) + "," + cfg.rootUrl + name) && ops == archive + [MoveUpload(name)])
                    && (!moved ==> reply == Echo("error") && ops == archive))
  {
    if !KeyAccepted(cfg.applianceKey, key) {
      return Echo("error"), [];
    }
    var used := CollectUsedNumbers(listing);
    var number := AllocateNumber(used, draws);
    if number.None? {
      return Hangs, [];
    }
    var n := number.value;
    if UploadRejected(upload).Some? {
      return Echo("error"), [];
    }
    var name := cfg.questionDir + StoredName(n, upload.hash, ".mp3");
    ops := [];
    if nameTaken {
      ops := [Rename(name, ArchiveName(name, millis))];
    }
    if !moved {
      return Echo("error"), ops;
    }
    ops := ops + [MoveUpload(name)];
    reply := Echo(NatToString(n) + "," + cfg.rootUrl + name);
  }

  lemma NoCommaInHash(hash: string)
    requires Sha1Hex(hash)
    ensures ',' !in hash
  {
    forall i | 0 <= i < |hash| ensures hash[i] != ',' {
      assert IsDigit(hash[i]) || 'a' <= hash[i] <= 'f';
    }
  }

  /**
   * The appliance reads a successful reply as the question number and the
   * address of the stored recording.
   */
  lemma QuestionReplyUnderstood(cfg: Config, n: nat, hash: string)
    requires STARTING_NUMBER <= n <= 9999 && Sha1Hex(hash) && ',' !in cfg.rootUrl + cfg.questionDir
    ensures var url := cfg.rootUrl + (cfg.questionDir + StoredName(n, hash, ".mp3"));
            Appliance.ParseUploadResponse(Some(NatToString(n) + "," + cfg.rootUrl + (cfg.questionDir + StoredName(n, hash, ".mp3"))))
              == Appliance.UploadAccepted(n, url)
  {
    var name := StoredName(n, hash, ".mp3");
    var url := cfg.rootUrl + (cfg.questionDir + name);
    NoCommaInHash(hash);
    NoDashInDigits(NatToString(n));
    assert ',' !in NatToString(n) by {
      forall i | 0 <= i < |NatToString(n)| ensures NatToString(n)[i] != ',' {
        assert IsDigit(NatToString(n)[i]);
      }
    }
    assert url == (cfg.rootUrl + cfg.questionDir) + NatToString(n) + "-" + hash + ".mp3";
    assert ',' !in url;
    assert NatToString(n) + "," + cfg.rootUrl + (cfg.questionDir + name) == NatToString(n) + "," + url;
    Appliance.UploadResponseRoundTrip(n, url);
  }
}
