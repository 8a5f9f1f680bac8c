/** Streaming an upstream body into a quarantine file while hashing it: the one-shot
    form, and the durable form that resumes a partial file across aborted attempts. */
module Quarantine {
  import opened Wrappers
  import opened CacheRows

  /** What a Read reported beside its bytes. */
  datatype ReadErr = Nil | Restart | Eof | Other

  /** One turn of the copy loop as the outside world decides it: whether ctx was done, the
      bytes read and their error, how many of them reached the file, and whether a
      restart could rewind and truncate it. */
  datatype Turn = Turn(cancelled: bool, data: Bytes, err: ReadErr, written: nat, rewound: bool)

  /** How an attempt ended. `Aborted` also covers a reader that is never heard of again. */
  datatype Outcome = Aborted | Completed(digest: Digest, size: nat)

  /** The file after an attempt, and how it ended. */
  datatype Result = Result(file: Bytes, outcome: Outcome)

  function Clip(data: Bytes, n: nat): Bytes
  {
    if n < |data| then data[..n] else data
  }

  /** The copy loop as a function of the file, the bytes hashed so far and the turns still
      to come; `closes` says whether the final Close worked. */
  function Copy(file: Bytes, hashed: Bytes, turns: seq<Turn>, closes: bool, sha: Hash): Result
    decreases |turns|
  {
    if turns == [] || turns[0].cancelled then Result(file, Aborted)
    else
      var t, rest := turns[0], turns[1..];
      if t.written < |t.data| then Result(file + Clip(t.data, t.written), Aborted)
      else
        var file', hashed' := file + t.data, hashed + t.data;
        match t.err
        case Nil => Copy(file', hashed', rest, closes, sha)
        case Restart => if t.rewound then Copy([], [], rest, closes, sha) else Result(file', Aborted)
        case Eof => if closes then Result(file', Completed(sha(hashed'), |hashed'|)) else Result(file', Aborted)
        case Other => Result(file', Aborted)
  }

  /** The mutable pieces of one attempt: the file, the running hash, the byte count. */
  class Sink {
    var file: Bytes
    var hashed: Bytes
    var n: nat

    constructor (partial: Bytes)
      ensures file == partial && hashed == [] && n == 0
    {
      file, hashed, n := partial, [], 0;
    }

    /** Existing bytes are hashed first, so that the digest covers the whole object. */
    method HashExisting()
      modifies this
      ensures file == old(file) && hashed == file && n == |file|
    {
      hashed, n := [], 0;
      if |file| > 0 {
        hashed := file;
        n := |file|;
      }
    }

    /** Both copy loops: the streaming hasher and the counter always speak of exactly the
        bytes that are in the file. */
    method CopyFrom(turns: seq<Turn>, closes: bool, sha: Hash) returns (outcome: Outcome)
      requires hashed == file && n == |file|
      modifies this
      ensures Result(file, outcome) == Copy(old(file), old(file), turns, closes, sha)
    {
      var i := 0;
      while i < |turns|
        invariant i <= |turns| && hashed == file && n == |file|
        invariant Copy(old(file), old(file), turns, closes, sha) == Copy(file, hashed, turns[i..], closes, sha)
      {
        var t := turns[i];
        assert turns[i..][1..] == turns[i + 1..];
        assert |t.data| == 0 ==> file + t.data == file && hashed + t.data == hashed;
        if t.cancelled { return Aborted; }
        if |t.data| > 0 {
          file := file + Clip(t.data, t.written);
          if t.written < |t.data| { return Aborted; }
          hashed := hashed + t.data;
          n := n + |t.data|;
        }
        if t.err == Restart {
          if !t.rewound { return Aborted; }
          file, hashed := [], [];
          n := 0;
        } else if t.err == Eof {
          if !closes { return Aborted; }
          return Completed(sha(hashed), n);
        } else if t.err == Other {
          return Aborted;
        }
        i := i + 1;
      }
      return Aborted;
    }
  }

  /** Resumes `partial`; whatever happens, the file stays for the next attempt. */
  method QuarantineAt(partial: Bytes, turns: seq<Turn>, closes: bool, sha: Hash) returns (file: Bytes, outcome: Outcome)
    ensures Result(file, outcome) == Copy(partial, partial, turns, closes, sha)
  {
    var sink := new Sink(partial);
    sink.HashExisting();
    outcome := sink.CopyFrom(turns, closes, sha);
    file := sink.file;
  }

  /** A fresh temporary file, removed unless the copy completed. */
  method QuarantineOnce(turns: seq<Turn>, closes: bool, sha: Hash) returns (file: Option<Bytes>, outcome: Outcome)
    ensures var r := Copy([], [], turns, closes, sha);
            outcome == r.outcome && file == if r.outcome.Completed? then Some(r.file) else None
  {
    var sink := new Sink([]);
    outcome := sink.CopyFrom(turns, closes, sha);
    file := if outcome.Completed? then Some(sink.file) else None;
  }

  // ---------------------------------------------------------------- theorems

  /** The reader streams `whole` from `from`: each read brings its next bytes, a restart
      goes back to the beginning, and end-of-file comes only at the end. */
  ghost predicate Streams(whole: Bytes, from: nat, turns: seq<Turn>)
    decreases |turns|
  {
    turns == [] ||
    (var t := turns[0];
     && from + |t.data| <= |whole| && t.data == whole[from..from + |t.data|]
     && (t.err == Eof ==> from + |t.data| == |whole|)
     && Streams(whole, if t.err == Restart then 0 else from + |t.data|, turns[1..]))
  }

  /** One attempt: whatever it leaves is a prefix of the object, and if it completes it
      reports the hash and the size of the whole object, which is what the file holds. */
  lemma {:induction false} AttemptKeepsPrefix(whole: Bytes, file: Bytes, turns: seq<Turn>, closes: bool, sha: Hash)
    requires file <= whole && Streams(whole, |file|, turns)
    ensures var r := Copy(file, file, turns, closes, sha);
            && r.file <= whole
            && (r.outcome.Completed? ==> r.file == whole && r.outcome == Completed(sha(whole), |whole|))
    decreases |turns|
  {
    if turns != [] && !turns[0].cancelled {
      var t := turns[0];
      assert file == whole[..|file|];
      assert file + t.data == whole[..|file| + |t.data|];
      if t.written >= |t.data| {
        if t.err == Nil {
          AttemptKeepsPrefix(whole, file + t.data, turns[1..], closes, sha);
        } else if t.err == Restart && t.rewound {
          AttemptKeepsPrefix(whole, [], turns[1..], closes, sha);
        }
      }
    }
  }

  /** One resumed attempt: the turns the world deals it, and whether Close works. */
  datatype Attempt = Attempt(turns: seq<Turn>, closes: bool)

  /** The partial file after a sequence of attempts. */
  function Resume(file: Bytes, attempts: seq<Attempt>, sha: Hash): Bytes
    decreases |attempts|
  {
    if attempts == [] then file
    else Resume(Copy(file, file, attempts[0].turns, attempts[0].closes, sha).file, attempts[1..], sha)
  }

  /** Every attempt's reader was asked to start at the length the partial file then had. */
  ghost predicate EachStreams(whole: Bytes, file: Bytes, attempts: seq<Attempt>, sha: Hash)
    decreases |attempts|
  {
    attempts == [] ||
    (Streams(whole, |file|, attempts[0].turns) &&
     EachStreams(whole, Copy(file, file, attempts[0].turns, attempts[0].closes, sha).file, attempts[1..], sha))
  }

  /** Across any sequence of attempts, aborted at any point, by short writes or restarts
      included, the partial file stays a prefix of the object; and the attempt that
      completes after them returns the hash and size of the whole object. */
  lemma {:induction false} ResumedDigestIsWhole(whole: Bytes, file: Bytes, attempts: seq<Attempt>, last: Attempt, sha: Hash)
    requires file <= whole && EachStreams(whole, file, attempts + [last], sha)
    ensures Resume(file, attempts, sha) <= whole
    ensures var partial := Resume(file, attempts, sha);
            var r := Copy(partial, partial, last.turns, last.closes, sha);
            r.file <= whole && (r.outcome.Completed? ==> r.outcome == Completed(sha(whole), |whole|))
    decreases |attempts|
  {
    if attempts == [] {
      assert attempts + [last] == [last];
      AttemptKeepsPrefix(whole, file, last.turns, last.closes, sha);
    } else {
      var a := attempts[0];
      assert (attempts + [last])[0] == a && (attempts + [last])[1..] == attempts[1..] + [last];
      AttemptKeepsPrefix(whole, file, a.turns, a.closes, sha);
      ResumedDigestIsWhole(whole, Copy(file, file, a.turns, a.closes, sha).file, attempts[1..], last, sha);
    }
  }

  /** Whatever the reader sends, object or not, the digest and size of a completed copy
      are those of the file's own bytes. */
  lemma {:induction false} DigestMatchesFile(file: Bytes, turns: seq<Turn>, closes: bool, sha: Hash)
    ensures var r := Copy(file, file, turns, closes, sha);
            r.outcome.Completed? ==> r.outcome == Completed(sha(r.file), |r.file|)
    decreases |turns|
  {
    if turns != [] && !turns[0].cancelled && turns[0].written >= |turns[0].data| {
      match turns[0].err
      case Nil => DigestMatchesFile(file + turns[0].data, turns[1..], closes, sha);
      case Restart => DigestMatchesFile([], turns[1..], closes, sha);
      case _ =>
    }
  }

  /** ... and an uninterrupted stream does complete. */
  lemma {:induction false} CleanStreamCompletes(file: Bytes, turns: seq<Turn>, sha: Hash)
    requires turns != [] && turns[|turns| - 1].err == Eof
    requires forall i :: 0 <= i < |turns| ==>
               !turns[i].cancelled && turns[i].written >= |turns[i].data| && turns[i].rewound
    requires forall i :: 0 <= i < |turns| - 1 ==> turns[i].err == Nil || turns[i].err == Restart
    ensures Copy(file, file, turns, true, sha).outcome.Completed?
    decreases |turns|
  {
    if |turns| > 1 {
      assert turns[0].err == Nil || turns[0].err == Restart;
      assert turns[1..][|turns[1..]| - 1] == turns[|turns| - 1];
      CleanStreamCompletes(if turns[0].err == Nil then file + turns[0].data else [], turns[1..], sha);
    }
  }

  // ------------------------------------------------- what an attempt leaves behind

  /** The attempt goes no further than this turn. */
  predicate Ends(t: Turn)
  {
    t.cancelled || t.written < |t.data| || t.err == Eof || t.err == Other || (t.err == Restart && !t.rewound)
  }

  /** The first turn that ends the attempt; all of them when none does. */
  function EndAt(turns: seq<Turn>): (k: nat)
    ensures k <= |turns| && (k < |turns| ==> Ends(turns[k]))
    ensures forall i :: 0 <= i < k ==> !Ends(turns[i])
  {
    if turns == [] || Ends(turns[0]) then 0 else 1 + EndAt(turns[1..])
  }

  /** The turn after the last restart; the first when there was none. */
  function Since(turns: seq<Turn>): (j: nat)
    ensures j <= |turns| && (j > 0 ==> turns[j - 1].err == Restart)
    ensures forall i :: j <= i < |turns| ==> turns[i].err != Restart
  {
    if turns == [] then 0
    else
      var j := Since(turns[1..]);
      if j > 0 then j + 1 else if turns[0].err == Restart then 1 else 0
  }

  /** The bytes of the turns, one after the other. */
  function Data(turns: seq<Turn>): Bytes
  {
    if turns == [] then [] else turns[0].data + Data(turns[1..])
  }

  /** The bytes the last turn got into the file before it ended the attempt. */
  function Last(t: Turn): Bytes
  {
    if t.cancelled then [] else if t.written < |t.data| then t.data[..t.written] else t.data
  }

  /** The file it found, or nothing if it restarted, then every byte it was given since,
      then what its last turn still got in. */
  function Left(file: Bytes, turns: seq<Turn>): Bytes
  {
    var k := EndAt(turns);
    var j := Since(turns[..k]);
    (if j == 0 then file else []) + Data(turns[j..k]) + (if k < |turns| then Last(turns[k]) else [])
  }

  /** That is what an attempt leaves, however it ends. It completes exactly when it ends at
      an end-of-file whose bytes are all in and the file closes. */
  lemma {:induction false} LeavesWhatItStreamed(file: Bytes, hashed: Bytes, turns: seq<Turn>, closes: bool, sha: Hash)
    ensures var r := Copy(file, hashed, turns, closes, sha);
            var k := EndAt(turns);
            && r.file == Left(file, turns)
            && (r.outcome.Completed? <==>
                  k < |turns| && closes && !turns[k].cancelled && turns[k].err == Eof && turns[k].written >= |turns[k].data|)
    decreases |turns|
  {
    hide Left;
    if EndAt(turns) == 0 {
      LeftAtOnce(file, turns);
    } else {
      var t, rest := turns[0], turns[1..];
      LeftLater(file, turns);
      LeavesWhatItStreamed(if t.err == Restart then [] else file + t.data,
                           if t.err == Restart then [] else hashed + t.data, rest, closes, sha);
    }
  }

  lemma LeftAtOnce(file: Bytes, turns: seq<Turn>)
    requires EndAt(turns) == 0
    ensures Left(file, turns) == file + if turns == [] then [] else Last(turns[0])
  {
    assert turns[..0] == [] && turns[0..0] == [];
    assert file + [] == file;
  }

  lemma LeftLater(file: Bytes, turns: seq<Turn>)
    requires EndAt(turns) > 0
    ensures Left(file, turns) == Left(if turns[0].err == Restart then [] else file + turns[0].data, turns[1..])
  {
    hide Since, EndAt, Left;
    var k, t, rest := EndAt(turns), turns[0], turns[1..];
    EndLater(turns);
    assert turns[..k] == [t] + rest[..k - 1];
    SinceHead(t, rest[..k - 1]);
    var i := Since(rest[..k - 1]);
    var kept := if t.err == Restart then [] else file + t.data;
    LeftIs(file, turns, k, Since(turns[..k]));
    LeftIs(kept, rest, k - 1, i);
    if i > 0 {
      SliceLater(turns, i, k);
    } else if t.err == Restart {
      SliceLater(turns, 0, k);
    } else {
      LeftGrows(file, turns, k);
    }
  }

  lemma LeftIs(file: Bytes, turns: seq<Turn>, k: nat, j: nat)
    requires k == EndAt(turns) && j == Since(turns[..k])
    ensures Left(file, turns) == (if j == 0 then file else []) + Data(turns[j..k]) + Tail(turns, k)
  {
    hide Since, EndAt, Last, Data;
  }

  /** The bytes of the turn that ended the attempt, if one did. */
  function Tail(turns: seq<Turn>, k: nat): Bytes
  {
    if k < |turns| then Last(turns[k]) else []
  }

  lemma LeftGrows(file: Bytes, turns: seq<Turn>, k: nat)
    requires 0 < k <= |turns|
    ensures file + Data(turns[0..k]) == file + turns[0].data + Data(turns[1..][0..k - 1])
  {
    hide Data;
    DataHead(turns[0..k]);
    SliceLater(turns, 0, k);
    assert turns[0..k][1..] == turns[1..k];
    assert file + (turns[0].data + Data(turns[1..k])) == file + turns[0].data + Data(turns[1..k]);
  }

  lemma SliceLater(turns: seq<Turn>, i: nat, k: nat)
    requires i < k <= |turns|
    ensures turns[1..][i..k - 1] == turns[i + 1..k]
  {
  }

  lemma DataHead(turns: seq<Turn>)
    requires turns != []
    ensures Data(turns) == turns[0].data + Data(turns[1..])
  {
  }

  lemma EndLater(turns: seq<Turn>)
    requires EndAt(turns) > 0
    ensures EndAt(turns[1..]) == EndAt(turns) - 1 && !Ends(turns[0])
    ensures EndAt(turns) < |turns| ==> turns[1..][EndAt(turns) - 1] == turns[EndAt(turns)]
  {
  }

  lemma SinceHead(t: Turn, rest: seq<Turn>)
    ensures var i := Since(rest); Since([t] + rest) == if i > 0 then i + 1 else if t.err == Restart then 1 else 0
  {
    assert ([t] + rest)[1..] == rest;
  }

  /** Without a restart the file only grows, whatever else goes wrong; so a resumed attempt
      starts no earlier than the last one got to. */
  lemma NeverShrinks(file: Bytes, turns: seq<Turn>, closes: bool, sha: Hash)
    requires forall i :: 0 <= i < |turns| ==> turns[i].err != Restart
    ensures file <= Copy(file, file, turns, closes, sha).file
  {
    LeavesWhatItStreamed(file, file, turns, closes, sha);
    var k := EndAt(turns);
    assert Since(turns[..k]) == 0;
    assert file + Data(turns[0..k]) + (if k < |turns| then Last(turns[k]) else []) ==
           file + (Data(turns[0..k]) + (if k < |turns| then Last(turns[k]) else []));
  }

  lemma {:induction false} ResumesNeverShrink(file: Bytes, attempts: seq<Attempt>, sha: Hash)
    requires forall a, i :: a in attempts && 0 <= i < |a.turns| ==> a.turns[i].err != Restart
    ensures file <= Resume(file, attempts, sha)
    decreases |attempts|
  {
    if attempts != [] {
      var a := attempts[0];
      NeverShrinks(file, a.turns, a.closes, sha);
      ResumesNeverShrink(Copy(file, file, a.turns, a.closes, sha).file, attempts[1..], sha);
    }
  }
}
