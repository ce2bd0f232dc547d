/**
 * What the tools exchange through their JSON-lines files: a line of a log is
 * either blank (nothing left after `strip()`) or one decoded record, and the
 * membership record written by the round logger for every flushed round.
 */
module Logs {
  import opened Wrappers

  datatype Line<R> = Blank | Record(rec: R)

  /**
   * One line of the membership log:
   * `{"round": r, "t_start": .., "t_end": .., "rsus": {rsu_id: [vehicle ids]}}`,
   * with the RSU keys in file order.
   */
  datatype MembershipRecord = MembershipRecord(round: int, tStart: real, tEnd: real, rsus: seq<(string, seq<string>)>)

  /** The records of the non-blank lines, in file order. */
  function NonBlank<R>(lines: seq<Line<R>>): (recs: seq<R>)
    ensures |recs| <= |lines|
  {
    if lines == [] then []
    else
      var prefix := NonBlank(lines[..|lines| - 1]);
      match lines[|lines| - 1]
      case Blank => prefix
      case Record(r) => prefix + [r]
  }

  /** Reading a file in two pieces gives the records of each piece in turn. */
  lemma {:induction false} NonBlankAppend<R>(a: seq<Line<R>>, b: seq<Line<R>>)
    ensures NonBlank(a + b) == NonBlank(a) + NonBlank(b)
    decreases |b|
  {
    if b != [] {
      assert (a + b)[..|a + b| - 1] == a + b[..|b| - 1];
      NonBlankAppend(a, b[..|b| - 1]);
    } else {
      assert a + b == a;
    }
  }

  /** Reading one more line adds its record, if it has one. */
  lemma NonBlankStep<R>(lines: seq<Line<R>>, n: nat)
    requires n < |lines|
    ensures NonBlank(lines[..n + 1]) == NonBlank(lines[..n]) + (if lines[n].Record? then [lines[n].rec] else [])
  {
    assert lines[..n + 1][..n] == lines[..n];
  }

  /** A record is kept exactly when some non-blank line holds it. */
  lemma {:induction false} NonBlankMembership<R>(lines: seq<Line<R>>, x: R)
    ensures x in NonBlank(lines) <==> exists i :: 0 <= i < |lines| && lines[i] == Record(x)
  {
    if lines != [] {
      var init := lines[..|lines| - 1];
      NonBlankMembership(init, x);
      if x in NonBlank(init) {
        var i :| 0 <= i < |init| && init[i] == Record(x);
        assert lines[i] == Record(x);
      }
      if exists i :: 0 <= i < |lines| && lines[i] == Record(x) {
        var i :| 0 <= i < |lines| && lines[i] == Record(x);
        if i < |init| {
          assert init[i] == Record(x);
        }
      }
    }
  }

  /** The number of records is the number of non-blank lines. */
  function CountRecords<R>(lines: seq<Line<R>>): nat
  {
    if lines == [] then 0
    else CountRecords(lines[..|lines| - 1]) + (if lines[|lines| - 1].Record? then 1 else 0)
  }

  lemma {:induction false} NonBlankLength<R>(lines: seq<Line<R>>)
    ensures |NonBlank(lines)| == CountRecords(lines)
  {
    if lines != [] {
      NonBlankLength(lines[..|lines| - 1]);
    }
  }

  /**
   * A handover between two consecutive observations of one vehicle: it had an
   * RSU before, has one now, and they differ.  Both loggers and the offline
   * analyser use this test.
   */
  predicate IsHandover(prev: Option<string>, curr: Option<string>)
  {
    prev.Some? && curr.Some? && prev.value != curr.value
  }
}
