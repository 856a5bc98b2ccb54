/**
 * The answer upload endpoint (answer.php), used by the answer app: the key,
 * the question number, a check that the question is listed, the upload
 * checks shared with question.php, and then the store. A recording is kept
 * as "<id>-<sha1>.m4a" in the answer directory; sending the same recording
 * again is taken for a retry and answered as a success without touching the
 * store, while a different recording for a name that is already taken is set
 * aside as "<name>.<ms>.new" and refused.
 */
module AnswerApi {
  import opened Common
  import opened ServerCommon
  import ResponsesApi
  import Appliance

  /** What answer.php echoes, and the moves into the answer directory it makes on the way. */
  datatype Handled = Handled(text: string, ops: seq<FileOp>)

  /** Where the answer to question n with the given content hash is kept. */
  function AnswerPath(cfg: Config, n: nat, hash: string): string
  {
    cfg.answerDir + StoredName(n, hash, ".m4a")
  }

  /** The name a second, different recording for a taken name is set aside under. */
  function AlternativeName(name: string, millis: nat): (r: string)
    ensures |r| > |name| && r[..|name|] == name && EndsWith(r, ".new")
  {
    var r := name + "." + NatToString(millis) + ".new";
    assert r[|r| - 4..] == ".new";
    r
  }

  /** Some name in the question listing has "<n>-" somewhere before a final ".mp3". */
  ghost predicate QuestionListed(questions: seq<Entry>, n: nat)
  {
    exists e :: e in questions && Matches(e.name, IdUnanchored(n, ".mp3"))
  }

  /** Every check before the store passes: key, number, listed question and upload. */
  ghost predicate Admissible(cfg: Config, key: Option<string>, id: Option<string>, questions: seq<Entry>, upload: Upload)
  {
    && KeyAccepted(cfg.answerAppKey, key)
    && QuestionIdOf(id).Some?
    && QuestionListed(questions, QuestionIdOf(id).value)
    && UploadRejected(upload).None?
  }

  /**
   * answer.php for one request. `questions` is the listing of the question
   * directory, `existingSize` the size of a file already stored under the
   * answer's name (None when there is none), `millis` the time and `moved`
   * whether move_uploaded_file succeeds. Every refusal echoes "error".
   */
  function AnswerUpload(cfg: Config, key: Option<string>, id: Option<string>, questions: seq<Entry>,
                        upload: Upload, existingSize: Option<int>, millis: nat, moved: bool): (r: Handled)
    ensures r.text != "error" <==>
              Admissible(cfg, key, id, questions, upload)
              && (if existingSize.Some? then existingSize.value == upload.size else moved)
    ensures !Admissible(cfg, key, id, questions, upload) ==> r.ops == []
    ensures Admissible(cfg, key, id, questions, upload) ==>
              var n := QuestionIdOf(id).value;
              var path := AnswerPath(cfg, n, upload.hash);
              && (r.text != "error" ==> r.text == NatToString(n) + "," + cfg.rootUrl + path)
              && r.ops == if !moved then []
                          else if existingSize.None? then [MoveUpload(path)]
                          else if existingSize.value != upload.size then [MoveUpload(AlternativeName(path, millis))]
                          else []
  {
    if !KeyAccepted(cfg.answerAppKey, key) then Handled("error", [])
    else if QuestionIdOf(id).None? then Handled("error", [])
    else
      var n := QuestionIdOf(id).value;
      var questionFile := Grep(questions, IdUnanchored(n, ".mp3"));
      GrepEmpty(questions, IdUnanchored(n, ".mp3"));
      if questionFile == [] then Handled("error", [])
      else if UploadRejected(upload).Some? then Handled("error", [])
      else
        var path := AnswerPath(cfg, n, upload.hash);
        var success := NatToString(n) + "," + cfg.rootUrl + path;
        assert success[|NatToString(n)|] == ',' && ',' !in "error";
        if existingSize.Some? then
          if upload.size == existingSize.value then Handled(success, [])
          else if !moved then Handled("error", [])
          else Handled("error", [MoveUpload(AlternativeName(path, millis))])
        else if !moved then Handled("error", [])
        else Handled(success, [MoveUpload(path)])
  }

  /**
   * Sending the same recording again after it was stored gets the same reply
   * and changes nothing, whenever it comes and whether or not a move would
   * succeed.
   */
  lemma RetryRepeatsReply(cfg: Config, key: Option<string>, id: Option<string>, questions: seq<Entry>,
                          upload: Upload, millis: nat, later: nat, moved: bool)
    requires AnswerUpload(cfg, key, id, questions, upload, None, millis, true).text != "error"
    ensures var first := AnswerUpload(cfg, key, id, questions, upload, None, millis, true);
            var again := AnswerUpload(cfg, key, id, questions, upload, Some(upload.size), later, moved);
            && first.ops == [MoveUpload(AnswerPath(cfg, QuestionIdOf(id).value, upload.hash))]
            && again.text == first.text && again.ops == []
  {
  }

  lemma {:induction false} FourDigitsEndsWith(s: string, suffix: string)
    requires FourDigitsAnywhere(s, suffix)
    ensures EndsWith(s, suffix)
    decreases |s|
  {
    if !FourDigitsFromStart(s, suffix) {
      FourDigitsEndsWith(s[1..], suffix);
      assert s[1..][|s[1..]| - |suffix|..] == s[|s| - |suffix|..];
    }
  }

  /**
   * A set-aside recording is never taken for an answer: none of the patterns
   * responses.php looks for answers with matches its name.
   */
  lemma AlternativeNeverAnswer(name: string, millis: nat, n: int)
    ensures var alt := AlternativeName(name, millis);
            && !Matches(alt, Extension(".m4a"))
            && !Matches(alt, IdAnchored(n, ".m4a"))
            && !Matches(alt, IdUnanchored(n, ".m4a"))
            && !Matches(alt, FourDigits(".m4a"))
  {
    var alt := AlternativeName(name, millis);
    assert alt[|alt| - 4..][3] == 'w';
    assert !EndsWith(alt, ".m4a") by {
      assert ".m4a"[3] == 'a';
    }
    if Matches(alt, IdUnanchored(n, ".m4a")) {
      AnywhereEndsWith(alt, IntToString(n) + "-", ".m4a");
    }
    if Matches(alt, FourDigits(".m4a")) {
      FourDigitsEndsWith(alt, ".m4a");
    }
  }

  /**
   * A different recording for a question that already has an answer under
   * the same name is refused, the stored answer stays where it is, and the
   * recording, when it is kept at all, is kept in the answer directory under
   * a name no answer pattern matches.
   */
  lemma ConflictingAnswerSetAside(cfg: Config, key: Option<string>, id: Option<string>, questions: seq<Entry>,
                                  upload: Upload, stored: int, millis: nat, moved: bool, m: int)
    requires Admissible(cfg, key, id, questions, upload) && stored != upload.size
    ensures var r := AnswerUpload(cfg, key, id, questions, upload, Some(stored), millis, moved);
            var kept := AlternativeName(StoredName(QuestionIdOf(id).value, upload.hash, ".m4a"), millis);
            && r.text == "error"
            && MoveUpload(AnswerPath(cfg, QuestionIdOf(id).value, upload.hash)) !in r.ops
            && (moved ==> r.ops == [MoveUpload(cfg.answerDir + kept)])
            && !Matches(kept, IdAnchored(m, ".m4a")) && !Matches(kept, FourDigits(".m4a"))
  {
    var n := QuestionIdOf(id).value;
    var name := StoredName(n, upload.hash, ".m4a");
    var path := AnswerPath(cfg, n, upload.hash);
    assert AlternativeName(path, millis) == cfg.answerDir + AlternativeName(name, millis);
    assert MoveUpload(path) != MoveUpload(AlternativeName(path, millis));
    AlternativeNeverAnswer(name, millis, m);
  }

  /**
   * An answer stored by answer.php for a four-digit question stored by
   * question.php, in directories that hold only such uploads, is what
   * responses.php's lookup as written then gives for that question, and the
   * appliance that asks downloads an answer to its own question.
   */
  lemma UploadedAnswerServed(cfg: Config, key: Option<string>, id: Option<string>, listing: seq<Entry>,
                             upload: Upload, millis: nat, questions: seq<Entry>, questionHash: string,
                             answers: seq<Entry>, t1: int, t2: int)
    requires AnswerUpload(cfg, key, id, listing, upload, None, millis, true).text != "error"
    requires var n := QuestionIdOf(id).value;
             && 1000 <= n <= 9999
             && Entry(StoredName(n, questionHash, ".mp3"), t1) in questions
             && Entry(StoredName(n, upload.hash, ".m4a"), t2) in answers
    requires StoredListing(questions, ".mp3") && StoredListing(answers, ".m4a")
    requires ',' !in cfg.rootUrl + cfg.answerDir && forall a :: a in answers ==> ',' !in a.name
    ensures var n := QuestionIdOf(id).value;
            var reply := ResponsesApi.SingleResponseAsWritten(cfg, n, questions, answers);
            && reply != "error" && reply != "unanswered"
            && exists e :: e in answers && LeadingNumber(e.name) == n
                 && Appliance.ParseAnswerResponse(n, Some(reply)) == Appliance.Download(cfg.rootUrl + cfg.answerDir + e.name)
  {
    var n := QuestionIdOf(id).value;
    var e := ResponsesApi.StoredAnswerDownloaded(cfg, n, questionHash, questions, upload.hash, answers, t1, t2);
    assert ResponsesApi.SingleResponseAsWritten(cfg, n, questions, answers)[|NatToString(n)|] == ',';
  }

  /**
   * The question check is unanchored like responses.php's: an answer for
   * question 5 passes it when only question 1005 is listed.
   */
  lemma UnanchoredCheckAcceptsOtherQuestion()
    ensures QuestionListed([Entry("1005-a.mp3", 0)], 5)
  {
    var e := Entry("1005-a.mp3", 0);
    ResponsesApi.FiveInsideQuestion();
    assert e in [e] && e.name == "1005-a.mp3";
  }
}
