/** The process score of fixed evaluation episodes, accumulated chunk by chunk over a vector of environments. */
module EvalScores {
  import opened Common
  import PC = ProgressCounts
  import TR = TrajectoryRecords

  function ScoreOf(s: TR.Step): real {
    match s.score
    case Some(score) => score
    case None => 0.0
  }

  /** The score at the first done step, or else at the last step. */
  function FinalScore(row: seq<TR.Step>): (score: real)
    requires row != []
    ensures exists d: nat :: TR.StopsAt(row, d) && (row[d].score == Some(score) || (row[d].score == None && score == 0.0))
  {
    assert TR.StopsAt(row, TR.StopAt(row));
    ScoreOf(row[TR.StopAt(row)])
  }

  predicate FullRows(rows: seq<seq<TR.Step>>, n: nat) {
    |rows| == n && forall i :: 0 <= i < n ==> rows[i] != []
  }

  /** terminal_or_latest_scores: environments that were done before contribute nothing. */
  method TerminalOrLatestScores(rows: seq<seq<TR.Step>>, alreadyDone: seq<bool>) returns (result: seq<real>)
    requires FullRows(rows, |alreadyDone|)
    ensures |result| == |rows|
    ensures forall i :: 0 <= i < |rows| ==> result[i] == if alreadyDone[i] then 0.0 else FinalScore(rows[i])
  {
    hide FinalScore;
    result := seq(|rows|, _ => 0.0);
    for i := 0 to |rows|
      invariant |result| == |rows|
      invariant forall j :: 0 <= j < |rows| ==> result[j] == if j < i && !alreadyDone[j] then FinalScore(rows[j]) else 0.0
    {
      if !alreadyDone[i] {
        result := result[i := FinalScore(rows[i])];
      }
    }
  }

  predicate AllFull(chunks: seq<seq<seq<TR.Step>>>, n: nat) {
    forall c :: 0 <= c < |chunks| ==> |chunks[c]| == n && FullRows(chunks[c], n)
  }

  /** Everything environment `i` emitted in the first chunks. */
  function Stream(chunks: seq<seq<seq<TR.Step>>>, i: nat): seq<TR.Step>
    requires forall c :: 0 <= c < |chunks| ==> i < |chunks[c]|
  {
    if chunks == [] then [] else Stream(chunks[..|chunks| - 1], i) + chunks[|chunks| - 1][i]
  }

  /** Later chunks matter only while no done step has been seen. */
  lemma NextChunk(seen: seq<TR.Step>, row: seq<TR.Step>)
    requires row != []
    ensures FinalScore(seen + row) == if PC.NoDone(seen) then FinalScore(row) else FinalScore(seen)
    ensures PC.NoDone(seen + row) <==> PC.NoDone(seen) && PC.NoDone(row)
  {
    PC.FirstDoneAppend(seen, row);
    var all := seen + row;
    assert forall i :: 0 <= i < |seen| ==> all[i] == seen[i];
    assert forall i :: 0 <= i < |row| ==> all[|seen| + i] == row[i];
  }

  ghost predicate ScoresAre(score: seq<real>, done: seq<bool>, chunks: seq<seq<seq<TR.Step>>>, n: nat)
    requires AllFull(chunks, n)
  {
    && |score| == |done| == n
    && forall i :: 0 <= i < n ==>
         && done[i] == !PC.NoDone(Stream(chunks, i))
         && score[i] == if Stream(chunks, i) == [] then 0.0 else FinalScore(Stream(chunks, i))
  }

  method AddChunk(score: seq<real>, done: seq<bool>, ghost chunks: seq<seq<seq<TR.Step>>>, rows: seq<seq<TR.Step>>, n: nat)
    returns (score': seq<real>, done': seq<bool>)
    requires AllFull(chunks, n) && FullRows(rows, n) && ScoresAre(score, done, chunks, n)
    ensures ScoresAre(score', done', chunks + [rows], n)
  {
    hide FinalScore, PC.NoDone;
    var active := TerminalOrLatestScores(rows, done);
    score' := seq(n, i requires 0 <= i < n => if done[i] then score[i] else active[i]);
    done' := seq(n, i requires 0 <= i < n => done[i] || !PC.NoDone(rows[i]));
    assert (chunks + [rows])[..|chunks|] == chunks;
    forall i | 0 <= i < n
      ensures done'[i] == !PC.NoDone(Stream(chunks + [rows], i)) && Stream(chunks + [rows], i) != []
      ensures score'[i] == FinalScore(Stream(chunks + [rows], i))
    {
      NextChunk(Stream(chunks, i), rows[i]);
      NothingDone();
    }
  }

  lemma NothingDone()
    ensures PC.NoDone([])
  {
  }

  /** Chunks after every environment is done change nothing. */
  lemma {:induction false} RestIsIrrelevant(score: seq<real>, done: seq<bool>, chunks: seq<seq<seq<TR.Step>>>, c: nat, n: nat)
    requires c <= |chunks| && AllFull(chunks, n)
    requires ScoresAre(score, done, chunks[..c], n) && forall i :: 0 <= i < n ==> done[i]
    ensures ScoresAre(score, done, chunks, n)
    decreases |chunks| - c
  {
    hide FinalScore, PC.NoDone;
    if c == |chunks| {
      assert chunks[..c] == chunks;
    } else {
      assert chunks[..c + 1][..c] == chunks[..c];
      forall i | 0 <= i < n
        ensures !PC.NoDone(Stream(chunks[..c + 1], i)) && score[i] == FinalScore(Stream(chunks[..c + 1], i))
        ensures Stream(chunks[..c + 1], i) != []
      {
        NextChunk(Stream(chunks[..c], i), chunks[c][i]);
        NothingDone();
      }
      RestIsIrrelevant(score, done, chunks, c + 1, n);
    }
  }

  /**
   The evaluation loop with terminal score reduction: whatever the chunking and wherever it stops because all
   environments are done, each score is the one at the environment's first done step, or its last step.
   */
  method AccumulateScores(chunks: seq<seq<seq<TR.Step>>>, n: nat) returns (score: seq<real>, done: seq<bool>)
    requires AllFull(chunks, n)
    ensures ScoresAre(score, done, chunks, n)
  {
    hide ScoresAre;
    score, done := seq(n, _ => 0.0), seq(n, _ => false);
    NoScores(score, done, n);
    for c := 0 to |chunks|
      invariant |done| == n && ScoresAre(score, done, chunks[..c], n)
    {
      assert chunks[..c + 1] == chunks[..c] + [chunks[c]];
      score, done := AddChunk(score, done, chunks[..c], chunks[c], n);
      DoneSize(score, done, chunks[..c + 1], n);
      if false !in done {
        RestIsIrrelevant(score, done, chunks, c + 1, n);
        return;
      }
    }
    assert chunks[..|chunks|] == chunks;
  }

  lemma NoScores(score: seq<real>, done: seq<bool>, n: nat)
    requires score == seq(n, _ => 0.0) && done == seq(n, _ => false)
    ensures ScoresAre(score, done, [], n)
  {
  }

  lemma DoneSize(score: seq<real>, done: seq<bool>, chunks: seq<seq<seq<TR.Step>>>, n: nat)
    requires AllFull(chunks, n) && ScoresAre(score, done, chunks, n)
    ensures |done| == n
  {
  }
}
