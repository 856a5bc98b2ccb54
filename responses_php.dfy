/**
 * The listing endpoint (responses.php), open to appliances and to the answer
 * app: with an id, the answer to one question ("<id>,<url>", "unanswered" or
 * "error"); with type=answered, the answers stored in the last ten minutes;
 * with type=unanswered, the questions that have no answer and are not held
 * by another answerer's live reservation, deleting expired reservations on
 * the way. The lists are JSON arrays of {"id":…,"url":"…"} objects.
 */
module ResponsesApi {
  import opened Common
  import opened ServerCommon
  import Appliance

  // ---------------------------------------------------------------------
  // One question's answer
  // ---------------------------------------------------------------------

  /**
   * The reply to a request for one question, given the question files and
   * the answer files that were found for it.
   */
  function AnswerReply(cfg: Config, requested: nat, questionFile: seq<Entry>, answerFile: seq<Entry>): (r: string)
    ensures r == "error" <==> questionFile == []
    ensures r == "unanswered" <==> questionFile != [] && answerFile == []
  {
    if questionFile == [] then "error"
    else if answerFile == [] then "unanswered"
    else
      var n := NatToString(requested);
      var r := n + "," + cfg.rootUrl + cfg.answerDir + answerFile[0].name;
      assert r[|n|] == ',' && ',' !in "error" && ',' !in "unanswered";
      r
  }

  /**
   * The single-question lookup as written: the patterns '~<id>-.*\.mp3$~' and
   * '~<id>-.*\.m4a$~' are not anchored, so they find any name in which
   * "<id>-" occurs.
   */
  function SingleResponseAsWritten(cfg: Config, requested: int, questions: seq<Entry>, answers: seq<Entry>): (r: string)
    ensures r == "error" <==> requested <= 0 || forall e :: e in questions ==> !Matches(e.name, IdUnanchored(requested, ".mp3"))
    ensures r == "unanswered" <==>
              && requested > 0 && (exists e :: e in questions && Matches(e.name, IdUnanchored(requested, ".mp3")))
              && forall e :: e in answers ==> !Matches(e.name, IdUnanchored(requested, ".m4a"))
    ensures r != "error" && r != "unanswered" ==>
              exists e :: e in answers && Matches(e.name, IdUnanchored(requested, ".m4a"))
                && r == NatToString(requested) + "," + cfg.rootUrl + cfg.answerDir + e.name
  {
    if requested <= 0 then "error"
    else
      var questionFile := Grep(questions, IdUnanchored(requested, ".mp3"));
      var answerFile := Grep(answers, IdUnanchored(requested, ".m4a"));
      GrepEmpty(questions, IdUnanchored(requested, ".mp3"));
      GrepEmpty(answers, IdUnanchored(requested, ".m4a"));
      if answerFile != [] then assert answerFile[0] in answerFile; AnswerReply(cfg, requested, questionFile, answerFile)
      else AnswerReply(cfg, requested, questionFile, answerFile)
  }

  /**
   * On listings that hold only stored uploads of four-digit questions, the
   * lookup as written answers a four-digit number exactly as the anchored
   * lookup does.
   */
  lemma UnanchoredAgreesOnStoredListings(cfg: Config, requested: nat, questions: seq<Entry>, answers: seq<Entry>)
    requires 1000 <= requested <= 9999 && StoredListing(questions, ".mp3") && StoredListing(answers, ".m4a")
    ensures SingleResponseAsWritten(cfg, requested, questions, answers) == SingleResponse(cfg, requested, questions, answers)
  {
    forall e | e in questions
      ensures Matches(e.name, IdUnanchored(requested, ".mp3")) <==> Matches(e.name, IdAnchored(requested, ".mp3"))
    {
      StoredListingPatternsAgree(questions, requested, ".mp3", e);
    }
    forall e | e in answers
      ensures Matches(e.name, IdUnanchored(requested, ".m4a")) <==> Matches(e.name, IdAnchored(requested, ".m4a"))
    {
      StoredListingPatternsAgree(answers, requested, ".m4a", e);
    }
    GrepAgree(questions, IdUnanchored(requested, ".mp3"), IdAnchored(requested, ".mp3"));
    GrepAgree(answers, IdUnanchored(requested, ".m4a"), IdAnchored(requested, ".m4a"));
  }

  /**
   * The single-question lookup with the patterns anchored at the start of the
   * name, as reserve.php writes them: only names that begin "<id>-".
   */
  function SingleResponse(cfg: Config, requested: int, questions: seq<Entry>, answers: seq<Entry>): (r: string)
    ensures r == "error" <==> requested <= 0 || forall e :: e in questions ==> !Matches(e.name, IdAnchored(requested, ".mp3"))
    ensures r == "unanswered" <==>
              && requested > 0 && (exists e :: e in questions && Matches(e.name, IdAnchored(requested, ".mp3")))
              && forall e :: e in answers ==> !Matches(e.name, IdAnchored(requested, ".m4a"))
  {
    if requested <= 0 then "error"
    else
      var questionFile := Grep(questions, IdAnchored(requested, ".mp3"));
      var answerFile := Grep(answers, IdAnchored(requested, ".m4a"));
      GrepEmpty(questions, IdAnchored(requested, ".mp3"));
      GrepEmpty(answers, IdAnchored(requested, ".m4a"));
      AnswerReply(cfg, requested, questionFile, answerFile)
  }

  /** A name that starts "<n>-" has n as its leading number. */
  lemma AnchoredLeadingNumber(name: string, n: nat, ext: string)
    requires Matches(name, IdAnchored(n, ext))
    ensures LeadingNumber(name) == n
  {
    var q := NatToString(n);
    var rest := name[|q| + 1..];
    assert name == q + ['-'] + rest;
    NoDashInDigits(q);
    ExplodeFirst(q, '-', rest);
    PhpIntvalOfPrefix(n, []);
    assert q + [] == q;
  }

  /**
   * Whatever answer the anchored lookup returns belongs to the question that
   * was asked for: its file is in the answer directory and its name starts
   * with the requested number.
   */
  lemma SingleResponseOwnAnswer(cfg: Config, requested: int, questions: seq<Entry>, answers: seq<Entry>) returns (e: Entry)
    requires SingleResponse(cfg, requested, questions, answers) != "error"
    requires SingleResponse(cfg, requested, questions, answers) != "unanswered"
    ensures requested > 0 && e in answers && e.name != [] && LeadingNumber(e.name) == requested
    ensures SingleResponse(cfg, requested, questions, answers) == NatToString(requested) + "," + cfg.rootUrl + cfg.answerDir + e.name
  {
    var answerFile := Grep(answers, IdAnchored(requested, ".m4a"));
    e := answerFile[0];
    assert e in answerFile;
    AnchoredLeadingNumber(e.name, requested, ".m4a");
  }

  /**
   * A four-digit question and its answer as question.php and answer.php
   * store them, in directories holding only such uploads, are found by the
   * lookup as written; the answer named belongs to the question, and the
   * appliance that asked downloads it.
   */
  lemma StoredAnswerDownloaded(cfg: Config, id: nat, questionHash: string, questions: seq<Entry>, answerHash: string, answers: seq<Entry>, t1: int, t2: int)
    returns (e: Entry)
    requires 1000 <= id <= 9999 && Entry(StoredName(id, questionHash, ".mp3"), t1) in questions && Entry(StoredName(id, answerHash, ".m4a"), t2) in answers
    requires StoredListing(questions, ".mp3") && StoredListing(answers, ".m4a")
    requires ',' !in cfg.rootUrl + cfg.answerDir && forall a :: a in answers ==> ',' !in a.name
    ensures e in answers && LeadingNumber(e.name) == id
    ensures SingleResponseAsWritten(cfg, id, questions, answers) == NatToString(id) + "," + cfg.rootUrl + cfg.answerDir + e.name
    ensures Appliance.ParseAnswerResponse(id, Some(SingleResponseAsWritten(cfg, id, questions, answers)))
              == Appliance.Download(cfg.rootUrl + cfg.answerDir + e.name)
  {
    StoredNameMatchesId(id, questionHash, ".mp3");
    StoredNameMatchesId(id, answerHash, ".m4a");
    UnanchoredAgreesOnStoredListings(cfg, id, questions, answers);
    e := SingleResponseOwnAnswer(cfg, id, questions, answers);
    ReplyDownloaded(cfg, id, e.name);
  }

  /** The appliance downloads the file a reply for its own number names. */
  lemma ReplyDownloaded(cfg: Config, id: nat, name: string)
    requires 0 < id <= INT_MAX && ',' !in cfg.rootUrl + cfg.answerDir && name != [] && ',' !in name
    ensures Appliance.ParseAnswerResponse(id, Some(NatToString(id) + "," + cfg.rootUrl + cfg.answerDir + name))
              == Appliance.Download(cfg.rootUrl + cfg.answerDir + name)
  {
    var url := cfg.rootUrl + cfg.answerDir + name;
    assert ',' !in url;
    assert NatToString(id) + "," + cfg.rootUrl + cfg.answerDir + name == NatToString(id) + "," + url;
    Appliance.AnswerResponseRoundTrip(id, id, url);
  }

  /** A name with a match of prefix.*suffix after some leading text matches the unanchored pattern. */
  lemma {:induction false} AnywhereAfter(lead: string, s: string, prefix: string, suffix: string)
    requires FromStart(s, prefix, suffix)
    ensures Anywhere(lead + s, prefix, suffix)
    decreases |lead|
  {
    if lead != [] {
      assert (lead + s)[1..] == lead[1..] + s;
      AnywhereAfter(lead[1..], s, prefix, suffix);
    } else {
      assert lead + s == s;
    }
  }

  lemma FivePrefix()
    ensures IntToString(5) + "-" == "5-"
  {
    assert NatToString(5) == "5";
  }

  /** "5-" occurs inside the name of question 1005. */
  lemma FiveInsideQuestion()
    ensures Matches("1005-a.mp3", IdUnanchored(5, ".mp3"))
  {
    FivePrefix();
    var s := "5-a.mp3";
    assert s[..2] == "5-" && s[|s| - 4..] == ".mp3";
    AnywhereAfter("100", s, "5-", ".mp3");
    assert "100" + s == "1005-a.mp3";
  }

  /** The name of question 1005 does not start with "5-". */
  lemma FiveNotAtStartOfQuestion()
    ensures !Matches("1005-a.mp3", IdAnchored(5, ".mp3"))
  {
    FivePrefix();
    assert "1005-a.mp3"[..2][0] == '1';
  }

  /** "5-" occurs inside the name of the answer to question 1005. */
  lemma FiveInsideAnswer()
    ensures Matches("1005-b.m4a", IdUnanchored(5, ".m4a"))
  {
    FivePrefix();
    var s := "5-b.m4a";
    assert s[..2] == "5-" && s[|s| - 4..] == ".m4a";
    AnywhereAfter("100", s, "5-", ".m4a");
    assert "100" + s == "1005-b.m4a";
  }

  /** The answer file of question 1005 starts with 1005, and its name holds no comma. */
  lemma ThousandFiveLeadingNumber()
    ensures LeadingNumber("1005-b.m4a") == 1005
    ensures "1005-b.m4a" != [] && ',' !in "1005-b.m4a"
  {
    var name := "1005-b.m4a";
    forall i | 0 <= i < |name| ensures name[i] != ',' {
      assert name[i] in {'1', '0', '5', '-', 'b', '.', 'm', '4', 'a'};
    }
    assert "1005-b.m4a" == NatToString(1005) + ['-'] + "b.m4a";
    NoDashInDigits(NatToString(1005));
    ExplodeFirst(NatToString(1005), '-', "b.m4a");
    PhpIntvalOfPrefix(1005, []);
    assert NatToString(1005) + [] == NatToString(1005);
  }

  /** What the two lookups find for question 5 beside question 1005 and its answer. */
  lemma ThousandFiveLookups(cfg: Config)
    ensures SingleResponseAsWritten(cfg, 5, [Entry("1005-a.mp3", 0)], [Entry("1005-b.m4a", 0)])
              == NatToString(5) + "," + cfg.rootUrl + cfg.answerDir + "1005-b.m4a"
    ensures SingleResponse(cfg, 5, [Entry("1005-a.mp3", 0)], [Entry("1005-b.m4a", 0)]) == "error"
  {
    var questions := [Entry("1005-a.mp3", 0)];
    var answers := [Entry("1005-b.m4a", 0)];
    FiveInsideQuestion();
    FiveNotAtStartOfQuestion();
    FiveInsideAnswer();
    assert questions[..0] == [] && answers[..0] == [];
    assert Grep(questions, IdUnanchored(5, ".mp3")) == questions;
    assert Grep(answers, IdUnanchored(5, ".m4a")) == answers;
    assert Grep(questions, IdAnchored(5, ".mp3")) == [];
  }

  /**
   * The discrepancy: a request for question 5 (the keypad entry 0005) finds
   * question 1005 and its answer through the unanchored patterns, and the
   * appliance accepts that answer as the answer to question 5. The anchored
   * lookup reports that there is no question 5.
   */
  lemma UnanchoredLookupAnswersOtherQuestion(cfg: Config)
    requires ',' !in cfg.rootUrl + cfg.answerDir
    ensures var r := SingleResponseAsWritten(cfg, 5, [Entry("1005-a.mp3", 0)], [Entry("1005-b.m4a", 0)]);
            && NatToString(5) == "5"
            && r == NatToString(5) + "," + cfg.rootUrl + cfg.answerDir + "1005-b.m4a"
            && LeadingNumber("1005-b.m4a") == 1005
            && Appliance.ParseAnswerResponse(5, Some(r)) == Appliance.Download(cfg.rootUrl + cfg.answerDir + "1005-b.m4a")
    ensures SingleResponse(cfg, 5, [Entry("1005-a.mp3", 0)], [Entry("1005-b.m4a", 0)]) == "error"
  {
    ThousandFiveLookups(cfg);
    ThousandFiveLeadingNumber();
    ReplyDownloaded(cfg, 5, "1005-b.m4a");
    assert NatToString(5) == "5";
  }

  // ---------------------------------------------------------------------
  // The lists
  // ---------------------------------------------------------------------

  /** One list element: {"id":<id>,"url":"<url>"}. */
  function JsonItem(id: string, url: string): string
  {
    "{\"id\":" + id + ",\"url\":\"" + url + "\"}"
  }

  /** Items separated by commas. */
  function JoinComma(items: seq<string>): string
  {
    if items == [] then ""
    else if |items| == 1 then items[0]
    else JoinComma(items[..|items| - 1]) + "," + items[|items| - 1]
  }

  /** A JSON array of the items. */
  function JsonArray(items: seq<string>): string
  {
    "[" + JoinComma(items) + "]"
  }

  /** Adding an item extends the text by a comma and the item, except after none. */
  lemma JoinCommaAppend(items: seq<string>, x: string)
    ensures JoinComma(items + [x]) == if items == [] then x else JoinComma(items) + "," + x
  {
    assert (items + [x])[..|items|] == items;
  }

  /** The echo of one more element with the $echoed flag extends the array text by that element. */
  lemma EchoStep(items: seq<string>, element: string, echoed: bool, text: string)
    requires (echoed <==> items != []) && text == "[" + JoinComma(items)
    ensures text + (if echoed then "," else "") + element == "[" + JoinComma(items + [element])
  {
    JoinCommaAppend(items, element);
  }

  /** Objects are joined with commas only between them: none follows '[' and none precedes ']'. */
  lemma {:induction false} JoinCommaEnds(items: seq<string>)
    requires forall i :: 0 <= i < |items| ==> |items[i]| >= 2 && items[i][0] == '{' && items[i][|items[i]| - 1] == '}'
    ensures items != [] ==> |JoinComma(items)| >= 2 && JoinComma(items)[0] == '{' && JoinComma(items)[|JoinComma(items)| - 1] == '}'
    ensures items == [] <==> JsonArray(items) == "[]"
    decreases |items|
  {
    if |items| > 1 {
      var init := items[..|items| - 1];
      JoinCommaEnds(init);
      var j := JoinComma(init);
      var last := items[|items| - 1];
      assert JoinComma(items) == j + "," + last;
      assert JoinComma(items)[0] == j[0];
    }
    if items != [] {
      assert |JsonArray(items)| >= 4;
    }
  }

  /** The entries younger than `age` seconds, in order. */
  function Younger(entries: seq<Entry>, now: int, age: int): (r: seq<Entry>)
    ensures forall e :: e in r <==> e in entries && now - e.mtime < age
  {
    if entries == [] then []
    else
      var init := Younger(entries[..|entries| - 1], now, age);
      var last := entries[|entries| - 1];
      assert entries == entries[..|entries| - 1] + [last];
      if now - last.mtime < age then init + [last] else init
  }

  /** One more entry of the listing is kept when it is young enough. */
  lemma YoungerStep(files: seq<Entry>, i: nat, now: int, age: int)
    requires i < |files|
    ensures Younger(files[..i + 1], now, age) ==
              if now - files[i].mtime < age then Younger(files[..i], now, age) + [files[i]] else Younger(files[..i], now, age)
  {
    assert files[..i + 1][..i] == files[..i];
  }

  /** An answered-list element: the raw text before the first '-' as the id, and the answer's address. */
  function AnsweredItem(cfg: Config, e: Entry): string
  {
    JsonItem(Field(e.name, '-', 0), cfg.rootUrl + cfg.answerDir + e.name)
  }

  function AnsweredItems(cfg: Config, files: seq<Entry>): (r: seq<string>)
    ensures |r| == |files|
  {
    if files == [] then [] else AnsweredItems(cfg, files[..|files| - 1]) + [AnsweredItem(cfg, files[|files| - 1])]
  }

  lemma AnsweredItemsAppend(cfg: Config, files: seq<Entry>, e: Entry)
    ensures AnsweredItems(cfg, files + [e]) == AnsweredItems(cfg, files) + [AnsweredItem(cfg, e)]
  {
    assert (files + [e])[..|files|] == files;
  }

  /** The answers the answered list reports: matched by '~\d{4}-.*\.m4a$~' and modified within 600 seconds. */
  function RecentAnswers(answers: seq<Entry>, now: int): seq<Entry>
  {
    Younger(Grep(answers, FourDigits(".m4a")), now, RECENT_ANSWERS_LIST_TIME)
  }

  /** The answered list, echoed piece by piece with the $echoed flag. */
  method AnsweredList(cfg: Config, answers: seq<Entry>, now: int) returns (text: string)
    ensures text == JsonArray(AnsweredItems(cfg, RecentAnswers(answers, now)))
  {
    var answerFiles := Grep(answers, FourDigits(".m4a"));
    var echoed := false;
    text := "[";
    for i := 0 to |answerFiles|
      invariant echoed <==> Younger(answerFiles[..i], now, RECENT_ANSWERS_LIST_TIME) != []
      invariant text == "[" + JoinComma(AnsweredItems(cfg, Younger(answerFiles[..i], now, RECENT_ANSWERS_LIST_TIME)))
    {
      var item := answerFiles[i];
      YoungerStep(answerFiles, i, now, RECENT_ANSWERS_LIST_TIME);
      if now - item.mtime < RECENT_ANSWERS_LIST_TIME {
        var done := Younger(answerFiles[..i], now, RECENT_ANSWERS_LIST_TIME);
        var element := AnsweredItem(cfg, item);
        AnsweredItemsAppend(cfg, done, item);
        EchoStep(AnsweredItems(cfg, done), element, echoed, text);
        text := text + (if echoed then "," else "") + element;
        echoed := true;
      }
    }
    assert answerFiles[..|answerFiles|] == answerFiles;
    text := text + "]";
  }

  /**
   * An answer stored by answer.php for a four-digit question less than ten
   * minutes ago is in the answered list, with its question number as the id.
   */
  lemma StoredAnswerListed(cfg: Config, answers: seq<Entry>, now: int, id: nat, hash: string, mtime: int)
    requires 1000 <= id <= 9999 && Entry(StoredName(id, hash, ".m4a"), mtime) in answers && now - mtime < RECENT_ANSWERS_LIST_TIME
    ensures JsonItem(NatToString(id), cfg.rootUrl + cfg.answerDir + StoredName(id, hash, ".m4a"))
              in AnsweredItems(cfg, RecentAnswers(answers, now))
  {
    var e := Entry(StoredName(id, hash, ".m4a"), mtime);
    StoredNameMatchesFourDigits(id, hash, ".m4a");
    StoredNameNumber(id, hash, ".m4a");
    var recent := RecentAnswers(answers, now);
    assert e in recent;
    AnsweredItemsContain(cfg, recent, e);
  }

  lemma {:induction false} AnsweredItemsContain(cfg: Config, files: seq<Entry>, e: Entry)
    requires e in files
    ensures AnsweredItem(cfg, e) in AnsweredItems(cfg, files)
    decreases |files|
  {
    if files[|files| - 1] != e {
      assert files == files[..|files| - 1] + [files[|files| - 1]];
      AnsweredItemsContain(cfg, files[..|files| - 1], e);
    }
  }

  /** An answer file is reported exactly when it matches the listing pattern and is less than ten minutes old. */
  lemma RecentAnswersMeaning(answers: seq<Entry>, now: int, e: Entry)
    ensures e in RecentAnswers(answers, now) <==>
              e in answers && Matches(e.name, FourDigits(".m4a")) && now - e.mtime < RECENT_ANSWERS_LIST_TIME
  {
  }

  /** The numbers held back by live reservations of other requesters, in listing order. */
  function HeldNumbers(reservations: seq<Entry>, source: nat, now: int): (r: seq<int>)
    ensures forall n :: n in r <==>
              exists e :: e in reservations && Live(e, now) && RecordedSource(e.name) != source && LeadingNumber(e.name) == n
  {
    if reservations == [] then []
    else
      var init := reservations[..|reservations| - 1];
      var last := reservations[|reservations| - 1];
      assert reservations == init + [last];
      if Live(last, now) && RecordedSource(last.name) != source then HeldNumbers(init, source, now) + [LeadingNumber(last.name)]
      else HeldNumbers(init, source, now)
  }

  /** The deletions of expired reservations, in listing order. */
  function ExpiredUnlinks(dir: string, reservations: seq<Entry>, now: int): (r: seq<FileOp>)
    ensures forall op :: op in r <==> exists e :: e in reservations && !Live(e, now) && op == Unlink(dir + e.name)
  {
    if reservations == [] then []
    else
      var init := reservations[..|reservations| - 1];
      var last := reservations[|reservations| - 1];
      assert reservations == init + [last];
      if !Live(last, now) then ExpiredUnlinks(dir, init, now) + [Unlink(dir + last.name)]
      else ExpiredUnlinks(dir, init, now)
  }

  /** $answeredQuestions after both loops: every answered number, then every held one. */
  function Blocked(answers: seq<Entry>, source: nat, now: int): seq<int>
  {
    LeadingNumbers(Grep(answers, FourDigits(".m4a"))) + HeldNumbers(Grep(answers, AnyReservation), source, now)
  }

  /** The questions that are listed: those whose leading number is not blocked. */
  function Unblocked(questionFiles: seq<Entry>, blocked: seq<int>): (r: seq<Entry>)
    ensures forall e :: e in r <==> e in questionFiles && LeadingNumber(e.name) !in blocked
  {
    if questionFiles == [] then []
    else
      var init := Unblocked(questionFiles[..|questionFiles| - 1], blocked);
      var last := questionFiles[|questionFiles| - 1];
      assert questionFiles == questionFiles[..|questionFiles| - 1] + [last];
      if LeadingNumber(last.name) !in blocked then init + [last] else init
  }

  /** One more question file is kept when its number is not blocked. */
  lemma UnblockedStep(files: seq<Entry>, i: nat, blocked: seq<int>)
    requires i < |files|
    ensures Unblocked(files[..i + 1], blocked) ==
              if LeadingNumber(files[i].name) !in blocked then Unblocked(files[..i], blocked) + [files[i]] else Unblocked(files[..i], blocked)
  {
    assert files[..i + 1][..i] == files[..i];
  }

  /** An unanswered-list element: the question's number and its address. */
  function UnansweredItem(cfg: Config, e: Entry): string
  {
    JsonItem(IntToString(LeadingNumber(e.name)), cfg.rootUrl + cfg.questionDir + e.name)
  }

  function UnansweredItems(cfg: Config, files: seq<Entry>): (r: seq<string>)
    ensures |r| == |files|
  {
    if files == [] then [] else UnansweredItems(cfg, files[..|files| - 1]) + [UnansweredItem(cfg, files[|files| - 1])]
  }

  lemma UnansweredItemsAppend(cfg: Config, files: seq<Entry>, e: Entry)
    ensures UnansweredItems(cfg, files + [e]) == UnansweredItems(cfg, files) + [UnansweredItem(cfg, e)]
  {
    assert (files + [e])[..|files|] == files;
  }

  /** The questions the unanswered list reports for a requester. */
  function OpenQuestions(questions: seq<Entry>, answers: seq<Entry>, source: nat, now: int): seq<Entry>
  {
    Unblocked(Grep(questions, FourDigits(".mp3")), Blocked(answers, source, now))
  }

  /** The first loop: the leading number of every answer file. */
  method CollectAnswered(answerFiles: seq<Entry>) returns (answered: seq<int>)
    ensures answered == LeadingNumbers(answerFiles)
  {
    answered := [];
    for i := 0 to |answerFiles|
      invariant answered == LeadingNumbers(answerFiles[..i])
    {
      assert answerFiles[..i + 1] == answerFiles[..i] + [answerFiles[i]];
      answered := answered + [LeadingNumber(answerFiles[i].name)];
    }
    assert answerFiles[..|answerFiles|] == answerFiles;
  }

  /** The second loop: live reservations of others block their question, expired ones are deleted. */
  method ReviewReservations(dir: string, reservedFiles: seq<Entry>, source: nat, now: int, answered: seq<int>)
    returns (blocked: seq<int>, ops: seq<FileOp>)
    ensures blocked == answered + HeldNumbers(reservedFiles, source, now)
    ensures ops == ExpiredUnlinks(dir, reservedFiles, now)
  {
    blocked, ops := answered, [];
    for i := 0 to |reservedFiles|
      invariant blocked == answered + HeldNumbers(reservedFiles[..i], source, now)
      invariant ops == ExpiredUnlinks(dir, reservedFiles[..i], now)
    {
      var item := reservedFiles[i];
      assert reservedFiles[..i + 1][..i] == reservedFiles[..i];
      if now - item.mtime < QUESTION_RESERVATION_TIME {
        if source != RecordedSource(item.name) {
          blocked := blocked + [LeadingNumber(item.name)];
        }
      } else {
        ops := ops + [Unlink(dir + item.name)];
      }
    }
    assert reservedFiles[..|reservedFiles|] == reservedFiles;
  }

  /** The third loop: the list of question files whose number is not blocked. */
  method ListUnblocked(cfg: Config, questionFiles: seq<Entry>, blocked: seq<int>) returns (text: string)
    ensures text == JsonArray(UnansweredItems(cfg, Unblocked(questionFiles, blocked)))
  {
    var echoed := false;
    text := "[";
    for i := 0 to |questionFiles|
      invariant echoed <==> Unblocked(questionFiles[..i], blocked) != []
      invariant text == "[" + JoinComma(UnansweredItems(cfg, Unblocked(questionFiles[..i], blocked)))
    {
      var item := questionFiles[i];
      UnblockedStep(questionFiles, i, blocked);
      var questionNumber := LeadingNumber(item.name);
      if questionNumber !in blocked {
        var done := Unblocked(questionFiles[..i], blocked);
        var element := UnansweredItem(cfg, item);
        UnansweredItemsAppend(cfg, done, item);
        EchoStep(UnansweredItems(cfg, done), element, echoed, text);
        text := text + (if echoed then "," else "") + element;
        echoed := true;
      }
    }
    assert questionFiles[..|questionFiles|] == questionFiles;
    text := text + "]";
  }

  /** The unanswered list and the deletions made while building it. */
  method UnansweredList(cfg: Config, source: nat, questions: seq<Entry>, answers: seq<Entry>, now: int)
    returns (text: string, ops: seq<FileOp>)
    ensures text == JsonArray(UnansweredItems(cfg, OpenQuestions(questions, answers, source, now)))
    ensures ops == ExpiredUnlinks(cfg.answerDir, Grep(answers, AnyReservation), now)
  {
    var questionFiles := Grep(questions, FourDigits(".mp3"));
    var answerFiles := Grep(answers, FourDigits(".m4a"));
    var reservedFiles := Grep(answers, AnyReservation);
    var answered := CollectAnswered(answerFiles);
    var blocked;
    blocked, ops := ReviewReservations(cfg.answerDir, reservedFiles, source, now, answered);
    text := ListUnblocked(cfg, questionFiles, blocked);
  }

  /**
   * A question is listed as unanswered exactly when it matches the listing
   * pattern, no answer file has its number, and no live reservation of
   * another requester has its number.
   */
  lemma OpenQuestionsMeaning(questions: seq<Entry>, answers: seq<Entry>, source: nat, now: int, q: Entry)
    ensures q in OpenQuestions(questions, answers, source, now) <==>
              && q in questions && Matches(q.name, FourDigits(".mp3"))
              && !(exists a :: a in answers && Matches(a.name, FourDigits(".m4a")) && LeadingNumber(a.name) == LeadingNumber(q.name))
              && !(exists r :: && r in answers && Matches(r.name, AnyReservation) && Live(r, now)
                               && RecordedSource(r.name) != source && LeadingNumber(r.name) == LeadingNumber(q.name))
  {
    var n := LeadingNumber(q.name);
    var answerFiles := Grep(answers, FourDigits(".m4a"));
    var reservedFiles := Grep(answers, AnyReservation);
    LeadingNumbersMeaning(answerFiles, n);
    assert n in HeldNumbers(reservedFiles, source, now) <==>
             exists r :: r in reservedFiles && Live(r, now) && RecordedSource(r.name) != source && LeadingNumber(r.name) == n;
  }

  /**
   * A question reserved by one answerer less than four minutes ago is not
   * offered to any other answerer.
   */
  lemma ReservedQuestionHidden(questions: seq<Entry>, answers: seq<Entry>, source: nat, now: int,
                               id: nat, hash: string, t1: int, holder: nat, t2: int)
    requires 1000 <= id <= 9999 && holder != source
    requires Entry(ReservationName(id, holder), t2) in answers && now - t2 < QUESTION_RESERVATION_TIME
    ensures Entry(StoredName(id, hash, ".mp3"), t1) !in OpenQuestions(questions, answers, source, now)
  {
    var q := Entry(StoredName(id, hash, ".mp3"), t1);
    var r := Entry(ReservationName(id, holder), t2);
    ReservationNameMatches(id, holder);
    ReservationNameFields(id, holder);
    StoredNameNumber(id, hash, ".mp3");
    OpenQuestionsMeaning(questions, answers, source, now, q);
    assert r in answers && Matches(r.name, AnyReservation) && Live(r, now) && RecordedSource(r.name) != source;
  }

  /** A question with a stored answer is never offered. */
  lemma AnsweredQuestionHidden(questions: seq<Entry>, answers: seq<Entry>, source: nat, now: int,
                               id: nat, hash: string, t1: int, answerHash: string, t2: int)
    requires 1000 <= id <= 9999 && Entry(StoredName(id, answerHash, ".m4a"), t2) in answers
    ensures Entry(StoredName(id, hash, ".mp3"), t1) !in OpenQuestions(questions, answers, source, now)
  {
    var q := Entry(StoredName(id, hash, ".mp3"), t1);
    var a := Entry(StoredName(id, answerHash, ".m4a"), t2);
    StoredNameMatchesFourDigits(id, answerHash, ".m4a");
    StoredNameNumber(id, answerHash, ".m4a");
    StoredNameNumber(id, hash, ".mp3");
    OpenQuestionsMeaning(questions, answers, source, now, q);
    assert a in answers && Matches(a.name, FourDigits(".m4a"));
  }

  /**
   * The holder of a live reservation still sees the question, as long as it
   * is unanswered and nobody else holds it.
   */
  lemma HolderStillSeesQuestion(questions: seq<Entry>, answers: seq<Entry>, now: int,
                                id: nat, hash: string, t1: int, holder: nat)
    requires 1000 <= id <= 9999 && Entry(StoredName(id, hash, ".mp3"), t1) in questions
    requires forall a :: a in answers && Matches(a.name, FourDigits(".m4a")) ==> LeadingNumber(a.name) != id
    requires forall r :: r in answers && Matches(r.name, AnyReservation) && Live(r, now) && LeadingNumber(r.name) == id ==>
                           RecordedSource(r.name) == holder
    ensures Entry(StoredName(id, hash, ".mp3"), t1) in OpenQuestions(questions, answers, holder, now)
  {
    var q := Entry(StoredName(id, hash, ".mp3"), t1);
    StoredNameMatchesFourDigits(id, hash, ".mp3");
    StoredNameNumber(id, hash, ".mp3");
    OpenQuestionsMeaning(questions, answers, holder, now, q);
  }

  // ---------------------------------------------------------------------
  // The request
  // ---------------------------------------------------------------------

  /** Either key opens the listings. */
  predicate EitherKey(cfg: Config, key: Option<string>)
  {
    KeyAccepted(cfg.applianceKey, key) || KeyAccepted(cfg.answerAppKey, key)
  }

  /**
   * responses.php: the key, then the single-question lookup when an id is
   * given, otherwise the list the type names (compared ignoring case).
   */
  method HandleResponses(cfg: Config, source: nat, key: Option<string>, id: Option<string>, kind: Option<string>,
                         questions: seq<Entry>, answers: seq<Entry>, now: int)
    returns (text: string, ops: seq<FileOp>)
    ensures !EitherKey(cfg, key) ==> text == "error" && ops == []
    ensures EitherKey(cfg, key) && id.Some? ==>
              text == SingleResponseAsWritten(cfg, PhpIntval(id.value), questions, answers) && ops == []
    ensures EitherKey(cfg, key) && id.None? && (kind.None? || !(EqualsIgnoreCase(kind.value, "answered") || EqualsIgnoreCase(kind.value, "unanswered"))) ==>
              text == "error" && ops == []
    ensures EitherKey(cfg, key) && id.None? && kind.Some? && EqualsIgnoreCase(kind.value, "answered") ==>
              text == JsonArray(AnsweredItems(cfg, RecentAnswers(answers, now))) && ops == []
    ensures EitherKey(cfg, key) && id.None? && kind.Some? && !EqualsIgnoreCase(kind.value, "answered") && EqualsIgnoreCase(kind.value, "unanswered") ==>
              && text == JsonArray(UnansweredItems(cfg, OpenQuestions(questions, answers, source, now)))
              && ops == ExpiredUnlinks(cfg.answerDir, Grep(answers, AnyReservation), now)
  {
    if !EitherKey(cfg, key) {
      return "error", [];
    }
    if id.Some? {
      return SingleResponseAsWritten(cfg, PhpIntval(id.value), questions, answers), [];
    }
    if kind.None? {
      return "error", [];
    }
    if EqualsIgnoreCase(kind.value, "answered") {
      text := AnsweredList(cfg, answers, now);
      ops := [];
    } else if EqualsIgnoreCase(kind.value, "unanswered") {
      text, ops := UnansweredList(cfg, source, questions, answers, now);
    } else {
      text, ops := "error", [];
    }
  }
}
