/**
 * The reservation endpoint (reserve.php): an answerer's app asks to hold a
 * stored, unanswered question for a while. Reservations are empty files
 * "<id>-<source>.reserved" in the answer directory whose modification time
 * starts a 240-second hold; an expired hold is taken over by whoever asks
 * next.
 */
module ReserveApi {
  import opened Common
  import opened ServerCommon

  /**
   * The checks before any reservation file is looked at: the answer app's
   * key, a positive question number, a stored question of that number and no
   * stored answer to it. The question number when they all pass.
   */
  function Admitted(cfg: Config, key: Option<string>, id: Option<string>, questions: seq<Entry>, answers: seq<Entry>): (r: Option<nat>)
    ensures r.Some? <==>
              && KeyAccepted(cfg.answerAppKey, key) && QuestionIdOf(id).Some?
              && (exists e :: e in questions && Matches(e.name, IdAnchored(QuestionIdOf(id).value, ".mp3")))
              && !(exists e :: e in answers && Matches(e.name, IdAnchored(QuestionIdOf(id).value, ".m4a")))
    ensures r.Some? ==> r == QuestionIdOf(id)
  {
    if !KeyAccepted(cfg.answerAppKey, key) then None
    else match QuestionIdOf(id)
      case None => None
      case Some(qid) =>
        var questionFile := Grep(questions, IdAnchored(qid, ".mp3"));
        var answerFile := Grep(answers, IdAnchored(qid, ".m4a"));
        if |questionFile| >= 1 then
          assert questionFile[0] in questionFile;
          if |answerFile| >= 1 then
            assert answerFile[0] in answerFile;
            None
          else Some(qid)
        else None
  }

  /** What the script has echoed and done so far, and whether it has thrown. */
  datatype Run = Run(text: string, ops: seq<FileOp>, failed: bool)

  /**
   * One pass of the loop over the question's reservation files: a live one
   * of the same requester is confirmed, a live one of another requester
   * throws, an expired one is deleted and the requester's own is created.
   */
  function Visit(dir: string, qid: nat, source: nat, now: int, r: Run, item: Entry): Run
  {
    if Live(item, now) then
      if source == RecordedSource(item.name) then r.(text := r.text + "success")
      else r.(failed := true)
    else
      r.(text := r.text + "success", ops := r.ops + [Unlink(dir + item.name), Touch(dir + ReservationName(qid, source))])
  }

  /** The loop over all the reservation files, up to the first that throws. */
  function VisitAll(dir: string, qid: nat, source: nat, now: int, items: seq<Entry>): Run
    decreases |items|
  {
    if items == [] then Run("", [], false)
    else
      var r := VisitAll(dir, qid, source, now, items[..|items| - 1]);
      if r.failed then r else Visit(dir, qid, source, now, r, items[|items| - 1])
  }

  /** The whole request: its echoed text and the files it touches and deletes, in order. */
  function Reservation(cfg: Config, source: nat, key: Option<string>, id: Option<string>,
                       questions: seq<Entry>, answers: seq<Entry>, now: int): (r: Run)
    ensures Admitted(cfg, key, id, questions, answers).None? ==> r.text == "error" && r.ops == []
    ensures !r.failed ==> Admitted(cfg, key, id, questions, answers).Some?
  {
    match Admitted(cfg, key, id, questions, answers)
    case None => Run("error", [], true)
    case Some(qid) =>
      var reserved := Grep(answers, ReservationOf(qid));
      if reserved == [] then Run("success", [Touch(cfg.answerDir + ReservationName(qid, source))], false)
      else
        var run := VisitAll(cfg.answerDir, qid, source, now, reserved);
        if run.failed then run.(text := run.text + "error") else run
  }

  /** The foreach over the reservation files, leaving at the first that throws. */
  method VisitReservations(dir: string, qid: nat, source: nat, now: int, reservedFiles: seq<Entry>)
    returns (text: string, ops: seq<FileOp>, failed: bool)
    ensures Run(text, ops, failed) == VisitAll(dir, qid, source, now, reservedFiles)
  {
    text, ops, failed := "", [], false;
    for i := 0 to |reservedFiles|
      invariant VisitAll(dir, qid, source, now, reservedFiles[..i]) == Run(text, ops, false)
    {
      var item := reservedFiles[i];
      assert reservedFiles[..i + 1][..i] == reservedFiles[..i];
      if now - item.mtime < QUESTION_RESERVATION_TIME {
        if source == RecordedSource(item.name) {
          text := text + "success";
        } else {
          failed := true;
          VisitAllStops(dir, qid, source, now, reservedFiles, i + 1);
          return;
        }
      } else {
        ops := ops + [Unlink(dir + item.name), Touch(dir + ReservationName(qid, source))];
        text := text + "success";
      }
    }
    assert reservedFiles[..|reservedFiles|] == reservedFiles;
  }

  /** Once a pass throws, the later passes do nothing. */
  lemma {:induction false} VisitAllStops(dir: string, qid: nat, source: nat, now: int, items: seq<Entry>, k: nat)
    requires k <= |items| && VisitAll(dir, qid, source, now, items[..k]).failed
    ensures VisitAll(dir, qid, source, now, items) == VisitAll(dir, qid, source, now, items[..k])
    decreases |items| - k
  {
    if k < |items| {
      assert items[..k + 1][..k] == items[..k];
      VisitAllStops(dir, qid, source, now, items, k + 1);
    } else {
      assert items[..k] == items;
    }
  }

  /** reserve.php: the checks, then the first reservation or the loop over the existing ones. */
  method HandleReserve(cfg: Config, source: nat, key: Option<string>, id: Option<string>,
                       questions: seq<Entry>, answers: seq<Entry>, now: int)
    returns (text: string, ops: seq<FileOp>)
    ensures text == Reservation(cfg, source, key, id, questions, answers, now).text
    ensures ops == Reservation(cfg, source, key, id, questions, answers, now).ops
  {
    var admitted := Admitted(cfg, key, id, questions, answers);
    if admitted.None? {
      return "error", [];
    }
    var qid := admitted.value;
    var reservedFiles := Grep(answers, ReservationOf(qid));
    if |reservedFiles| <= 0 {
      return "success", [Touch(cfg.answerDir + ReservationName(qid, source))];
    }
    var failed;
    text, ops, failed := VisitReservations(cfg.answerDir, qid, source, now, reservedFiles);
    if failed {
      text := text + "error";
    }
  }

  /** The names in a directory once the operations inside it are done. */
  function Apply(names: set<string>, dir: string, ops: seq<FileOp>): set<string>
    decreases |ops|
  {
    if ops == [] then names
    else
      var next := match ops[0]
        case Touch(p) => if dir <= p then names + {p[|dir|..]} else names
        case Unlink(p) => if dir <= p then names - {p[|dir|..]} else names
        case _ => names;
      Apply(next, dir, ops[1..])
  }

  /** The reservation files of a question among some names. */
  function ReservationsOf(names: set<string>, qid: nat): set<string>
  {
    set x | x in names && Matches(x, ReservationOf(qid))
  }

  /**
   * Without a reservation file the request reserves the question for the
   * requester: the one reservation file afterwards records the requester.
   */
  lemma FirstReservation(cfg: Config, source: nat, key: Option<string>, id: Option<string>,
                         questions: seq<Entry>, answers: seq<Entry>, now: int)
    requires Admitted(cfg, key, id, questions, answers).Some?
    requires ReservationsOf(Names(answers), Admitted(cfg, key, id, questions, answers).value) == {}
    ensures var qid := Admitted(cfg, key, id, questions, answers).value;
            var run := Reservation(cfg, source, key, id, questions, answers, now);
            && run.text == "success"
            && ReservationsOf(Apply(Names(answers), cfg.answerDir, run.ops), qid) == {ReservationName(qid, source)}
            && RecordedSource(ReservationName(qid, source)) == source
  {
    var qid := Admitted(cfg, key, id, questions, answers).value;
    forall e | e in answers ensures !Matches(e.name, ReservationOf(qid)) {
      assert e.name in Names(answers) && (e.name in ReservationsOf(Names(answers), qid) <==> Matches(e.name, ReservationOf(qid)));
    }
    GrepEmpty(answers, ReservationOf(qid));
    var t := ReservationName(qid, source);
    var run := Reservation(cfg, source, key, id, questions, answers, now);
    assert run.ops == [Touch(cfg.answerDir + t)];
    assert (cfg.answerDir + t)[|cfg.answerDir|..] == t;
    assert Apply(Names(answers), cfg.answerDir, run.ops) == Names(answers) + {t};
    ReservationNameMatches(qid, source);
    ReservationNameFields(qid, source);
  }

  /**
   * With one reservation file: a live one of the same requester is confirmed
   * and nothing changes; a live one of someone else is refused and nothing
   * changes; an expired one is replaced by the requester's own.
   */
  lemma OneReservation(cfg: Config, source: nat, key: Option<string>, id: Option<string>,
                       questions: seq<Entry>, answers: seq<Entry>, now: int, item: Entry)
    requires Admitted(cfg, key, id, questions, answers).Some?
    requires Grep(answers, ReservationOf(Admitted(cfg, key, id, questions, answers).value)) == [item]
    ensures var qid := Admitted(cfg, key, id, questions, answers).value;
            var run := Reservation(cfg, source, key, id, questions, answers, now);
            && (Live(item, now) && RecordedSource(item.name) == source ==> run.text == "success" && run.ops == [])
            && (Live(item, now) && RecordedSource(item.name) != source ==> run.text == "error" && run.ops == [])
            && (!Live(item, now) ==>
                  run.text == "success" && run.ops == [Unlink(cfg.answerDir + item.name), Touch(cfg.answerDir + ReservationName(qid, source))])
  {
    var qid := Admitted(cfg, key, id, questions, answers).value;
    assert [item][..0] == [];
    assert VisitAll(cfg.answerDir, qid, source, now, [item]) == Visit(cfg.answerDir, qid, source, now, Run("", [], false), item);
  }

  /** With distinct names and at most one reservation file among them, the listing holds at most that one. */
  lemma SingleReservationFile(answers: seq<Entry>, qid: nat) returns (item: Entry)
    requires forall i, j :: 0 <= i < j < |answers| ==> answers[i].name != answers[j].name
    requires |ReservationsOf(Names(answers), qid)| == 1
    ensures Grep(answers, ReservationOf(qid)) == [item]
    ensures ReservationsOf(Names(answers), qid) == {item.name}
  {
    var before := ReservationsOf(Names(answers), qid);
    var reserved := Grep(answers, ReservationOf(qid));
    var x :| x in before;
    assert |before - {x}| == |before| - 1;
    assert before - {x} == {};
    var e :| e in answers && e.name == x;
    assert e in reserved;
    assert Names(reserved) == {x};
    GrepDistinctNames(answers, ReservationOf(qid));
    DistinctNamesCount(reserved);
    item := reserved[0];
  }

  /** Replacing an expired reservation file leaves the requester's as the only one. */
  lemma ReplacedReservation(names: set<string>, dir: string, qid: nat, source: nat, x: string)
    requires ReservationsOf(names, qid) == {x}
    ensures ReservationsOf(Apply(names, dir, [Unlink(dir + x), Touch(dir + ReservationName(qid, source))]), qid)
              == {ReservationName(qid, source)}
  {
    var t := ReservationName(qid, source);
    assert (dir + x)[|dir|..] == x;
    assert (dir + t)[|dir|..] == t;
    assert dir <= dir + x && dir <= dir + t;
    assert [Unlink(dir + x), Touch(dir + t)][1..] == [Touch(dir + t)];
    assert Apply(names, dir, [Touch(dir + t)]) == names + {t};
    assert Apply(names - {x}, dir, [Touch(dir + t)]) == names - {x} + {t};
    ReservationNameMatches(qid, source);
  }

  /**
   * A question never has more than one reservation file: from at most one,
   * every request leaves exactly one, and after "success" it records the
   * requester.
   */
  lemma AtMostOneReservation(cfg: Config, source: nat, key: Option<string>, id: Option<string>,
                             questions: seq<Entry>, answers: seq<Entry>, now: int)
    requires Admitted(cfg, key, id, questions, answers).Some?
    requires |ReservationsOf(Names(answers), Admitted(cfg, key, id, questions, answers).value)| <= 1
    requires forall i, j :: 0 <= i < j < |answers| ==> answers[i].name != answers[j].name
    ensures var qid := Admitted(cfg, key, id, questions, answers).value;
            var run := Reservation(cfg, source, key, id, questions, answers, now);
            var after := ReservationsOf(Apply(Names(answers), cfg.answerDir, run.ops), qid);
            && |after| == 1
            && (run.text == "success" ==> forall x :: x in after ==> RecordedSource(x) == source)
  {
    var qid := Admitted(cfg, key, id, questions, answers).value;
    var before := ReservationsOf(Names(answers), qid);
    if before == {} {
      FirstReservation(cfg, source, key, id, questions, answers, now);
    } else {
      var item := SingleReservationFile(answers, qid);
      OneReservation(cfg, source, key, id, questions, answers, now, item);
      var run := Reservation(cfg, source, key, id, questions, answers, now);
      if !Live(item, now) {
        ReplacedReservation(Names(answers), cfg.answerDir, qid, source, item.name);
        ReservationNameFields(qid, source);
      } else {
        assert Apply(Names(answers), cfg.answerDir, run.ops) == Names(answers);
      }
    }
  }

  /** Filtering a listing keeps its names distinct. */
  lemma {:induction false} GrepDistinctNames(entries: seq<Entry>, p: Pattern)
    requires forall i, j :: 0 <= i < j < |entries| ==> entries[i].name != entries[j].name
    ensures forall i, j :: 0 <= i < j < |Grep(entries, p)| ==> Grep(entries, p)[i].name != Grep(entries, p)[j].name
    decreases |entries|
  {
    if entries != [] {
      var init := entries[..|entries| - 1];
      var last := entries[|entries| - 1];
      GrepDistinctNames(init, p);
      forall e | e in Grep(init, p) ensures e.name != last.name {
        var k :| 0 <= k < |init| && init[k] == e;
        assert entries[k] == e;
      }
    }
  }

  /** A listing of distinct names has as many names as entries. */
  lemma {:induction false} DistinctNamesCount(entries: seq<Entry>)
    requires forall i, j :: 0 <= i < j < |entries| ==> entries[i].name != entries[j].name
    ensures |Names(entries)| == |entries|
    decreases |entries|
  {
    if entries != [] {
      var init := entries[..|entries| - 1];
      var last := entries[|entries| - 1];
      DistinctNamesCount(init);
      assert entries == init + [last];
      NamesSnoc(init, last);
      forall y | y in Names(init) ensures y != last.name {
        var k :| 0 <= k < |init| && init[k].name == y;
        assert entries[k].name == y;
      }
    }
  }

  lemma NamesSnoc(init: seq<Entry>, last: Entry)
    ensures Names(init + [last]) == Names(init) + {last.name}
  {
    forall y ensures y in Names(init + [last]) <==> y in Names(init) + {last.name} {
      if y in Names(init + [last]) {
        var e :| e in init + [last] && e.name == y;
      }
      if y == last.name {
        assert last in init + [last];
      }
      if y in Names(init) {
        var e :| e in init && e.name == y;
        assert e in init + [last];
      }
    }
  }
}
