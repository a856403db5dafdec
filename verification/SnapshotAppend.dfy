/** Crash-tolerant appends to a newline-terminated record file (replay/option_snapshots.py). */
module SnapshotAppend {

  type Byte = b: int | 0 <= b < 256

  const NEWLINE: Byte := 10
  const CHUNK := 8192

  /** A file opened for appending and reading: reads go through a position, writes go to the end. */
  class FileHandle {
    var content: seq<Byte>
    var position: nat

    constructor (bytes: seq<Byte>)
      ensures content == bytes
    {
      content, position := bytes, 0;
    }

    method SeekTo(offset: nat)
      modifies `position
      ensures position == offset
    {
      position := offset;
    }

    method Read(count: nat) returns (bytes: seq<Byte>)
      requires position + count <= |content|
      modifies `position
      ensures bytes == content[old(position)..old(position) + count]
      ensures position == old(position) + count
    {
      bytes := content[position..position + count];
      position := position + count;
    }

    method Truncate(size: nat)
      requires size <= |content|
      modifies `content
      ensures content == old(content)[..size]
    {
      content := content[..size];
    }

    method Write(bytes: seq<Byte>)
      modifies `content
      ensures content == old(content) + bytes
    {
      content := content + bytes;
    }
  }

  /** The longest prefix that is empty or ends in a newline. */
  function CompletePrefix(content: seq<Byte>): (p: seq<Byte>)
    ensures p <= content
    ensures p == [] || p[|p| - 1] == NEWLINE
  {
    if content == [] || content[|content| - 1] == NEWLINE then content
    else CompletePrefix(content[..|content| - 1])
  }

  /** What `CompletePrefix` drops is exactly the newline-free rest. */
  lemma {:induction false} CompletePrefixCut(content: seq<Byte>, cut: nat)
    requires cut <= |content|
    requires cut == 0 || content[cut - 1] == NEWLINE
    requires NEWLINE !in content[cut..]
    ensures CompletePrefix(content) == content[..cut]
  {
    if cut < |content| {
      var n := |content| - 1;
      assert content[cut..][n - cut] == content[n];
      assert content[..n][cut..] == content[cut..n];
      assert forall x :: x in content[cut..n] ==> x in content[cut..];
      assert content[..n][..cut] == content[..cut];
      CompletePrefixCut(content[..n], cut);
    } else {
      assert content[..cut] == content;
    }
  }

  /** The position of the last newline, or -1. */
  function LastNewline(bytes: seq<Byte>): (at: int)
    ensures -1 <= at < |bytes|
    ensures at >= 0 ==> bytes[at] == NEWLINE
    ensures NEWLINE !in bytes[at + 1..]
  {
    if bytes == [] then -1
    else if bytes[|bytes| - 1] == NEWLINE then |bytes| - 1
    else
      var n := |bytes| - 1;
      var at := LastNewline(bytes[..n]);
      StillNone(bytes, at + 1);
      at
  }

  lemma {:induction false} StillNone(bytes: seq<Byte>, from: nat)
    requires from < |bytes| && bytes[|bytes| - 1] != NEWLINE && NEWLINE !in bytes[..|bytes| - 1][from..]
    ensures NEWLINE !in bytes[from..]
  {
    assert bytes[from..] == bytes[..|bytes| - 1][from..] + [bytes[|bytes| - 1]];
  }

  lemma {:induction false} TailIsClean(content: seq<Byte>, start: nat, skip: nat, cursor: nat)
    requires start + skip <= cursor <= |content|
    requires NEWLINE !in content[start..cursor][skip..] && NEWLINE !in content[cursor..]
    ensures NEWLINE !in content[start + skip..]
  {
    assert content[start + skip..] == content[start..cursor][skip..] + content[cursor..];
  }

  /** _truncate_incomplete_jsonl_tail: scan backwards chunk by chunk for the last newline and cut behind it. */
  method TruncateIncompleteTail(handle: FileHandle)
    modifies handle
    ensures handle.content == CompletePrefix(old(handle.content))
  {
    hide LastNewline;
    ghost var c := handle.content;
    var size := |handle.content|;
    if size == 0 {
      return;
    }
    handle.SeekTo(size - 1);
    var last := handle.Read(1);
    assert last[0] == c[size - 1];
    if last[0] == NEWLINE {
      return;
    }
    hide CompletePrefix;
    var cursor := size;
    while cursor > 0
      invariant 0 <= cursor <= size
      invariant handle.content == c && size == |c|
      invariant NEWLINE !in c[cursor..]
    {
      var chunkStart := if cursor > CHUNK then cursor - CHUNK else 0;
      handle.SeekTo(chunkStart);
      ghost var length := cursor - chunkStart;
      assert c[chunkStart..chunkStart + length] == c[chunkStart..cursor];
      var chunk := handle.Read(cursor - chunkStart);
      assert chunk == c[chunkStart..cursor];
      var newlineAt := LastNewline(chunk);
      TailIsClean(c, chunkStart, newlineAt + 1, cursor);
      if newlineAt >= 0 {
        assert chunk[newlineAt] == c[chunkStart + newlineAt];
        CompletePrefixCut(c, chunkStart + newlineAt + 1);
        handle.Truncate(chunkStart + newlineAt + 1);
        return;
      }
      cursor := chunkStart;
    }
    CompletePrefixCut(c, 0);
    handle.Truncate(0);
  }

  /** A record's body is one line of JSON and so holds no newline. */
  predicate IsBody(body: seq<Byte>) {
    NEWLINE !in body
  }

  function Record(body: seq<Byte>): seq<Byte> {
    body + [NEWLINE]
  }

  /** append_option_chain_snapshot, after serialisation: repair the tail, then write the record. */
  method AppendRecord(handle: FileHandle, body: seq<Byte>)
    requires IsBody(body)
    modifies handle
    ensures handle.content == CompletePrefix(old(handle.content)) + Record(body)
  {
    TruncateIncompleteTail(handle);
    handle.Write(Record(body));
  }

  // ---------------------------------------------------------------- whole histories

  /** One append that may have died: before the repair, or after `written` bytes of its record. */
  datatype Attempt = DiedEarly | Wrote(body: seq<Byte>, written: nat)
  {
    predicate Valid() {
      Wrote? ==> IsBody(body) && written <= |body| + 1
    }

    predicate Landed() {
      Wrote? && written == |body| + 1
    }
  }

  function After(content: seq<Byte>, a: Attempt): seq<Byte>
    requires a.Valid()
  {
    match a
    case DiedEarly => content
    case Wrote(body, written) => CompletePrefix(content) + Record(body)[..written]
  }

  function AfterAll(content: seq<Byte>, attempts: seq<Attempt>): seq<Byte>
    requires forall a :: a in attempts ==> a.Valid()
  {
    if attempts == [] then content
    else After(AfterAll(content, attempts[..|attempts| - 1]), attempts[|attempts| - 1])
  }

  /** The bodies of the attempts whose newline reached the file, in order. */
  function LandedBodies(attempts: seq<Attempt>): (bodies: seq<seq<Byte>>)
    requires forall a :: a in attempts ==> a.Valid()
    ensures |bodies| <= |attempts|
    ensures forall i :: 0 <= i < |bodies| ==> IsBody(bodies[i])
  {
    if attempts == [] then []
    else
      var a := attempts[|attempts| - 1];
      assert a in attempts;
      assert a.Valid();
      var before := LandedBodies(attempts[..|attempts| - 1]);
      assert a.Landed() ==> IsBody(a.body);
      assert forall i :: 0 <= i < |before| ==> IsBody(before[i]);
      if a.Landed() then before + [a.body] else before
  }

  function Records(bodies: seq<seq<Byte>>): seq<Byte> {
    if bodies == [] then [] else Records(bodies[..|bodies| - 1]) + Record(bodies[|bodies| - 1])
  }

  /** A newline-terminated prefix followed by a newline-free tail is repaired to the prefix. */
  lemma {:induction false} RepairDropsTail(whole: seq<Byte>, tail: seq<Byte>)
    requires whole == [] || whole[|whole| - 1] == NEWLINE
    requires NEWLINE !in tail
    ensures CompletePrefix(whole + tail) == whole
  {
    assert (whole + tail)[|whole|..] == tail && (whole + tail)[..|whole|] == whole;
    CompletePrefixCut(whole + tail, |whole|);
  }

  /** However the appends died, repairing the file leaves exactly the landed records, in order. */
  lemma {:induction false} CrashesLoseOnlyTornRecords(content: seq<Byte>, attempts: seq<Attempt>)
    requires forall a :: a in attempts ==> a.Valid()
    ensures CompletePrefix(AfterAll(content, attempts)) == CompletePrefix(content) + Records(LandedBodies(attempts))
  {
    if attempts == [] {
      assert CompletePrefix(content) + [] == CompletePrefix(content);
    } else {
      var n := |attempts| - 1;
      var before, a := AfterAll(content, attempts[..n]), attempts[n];
      assert a in attempts && a.Valid();
      CrashesLoseOnlyTornRecords(content, attempts[..n]);
      var bodies := LandedBodies(attempts[..n]);
      if a.Landed() {
        OneMoreLands(before, a.body);
        assert (bodies + [a.body])[..|bodies|] == bodies;
        assert CompletePrefix(content) + Records(bodies) + Record(a.body)
          == CompletePrefix(content) + (Records(bodies) + Record(a.body));
      } else if a.Wrote? {
        TornIsRepaired(before, a.body, a.written);
      }
    }
  }

  lemma {:induction false} OneMoreLands(before: seq<Byte>, body: seq<Byte>)
    requires IsBody(body)
    ensures CompletePrefix(After(before, Wrote(body, |body| + 1))) == CompletePrefix(before) + Record(body)
  {
    assert Record(body)[..|body| + 1] == Record(body);
    var whole := CompletePrefix(before) + Record(body);
    RepairDropsTail(whole, []);
    assert whole + [] == whole;
  }

  lemma {:induction false} TornIsRepaired(before: seq<Byte>, body: seq<Byte>, written: nat)
    requires IsBody(body) && written <= |body|
    ensures CompletePrefix(After(before, Wrote(body, written))) == CompletePrefix(before)
  {
    assert Record(body)[..written] == body[..written];
    assert forall x :: x in body[..written] ==> x in body;
    RepairDropsTail(CompletePrefix(before), Record(body)[..written]);
  }

  /** A successful append after any crashes leaves the landed records and the new one, and nothing else. */
  lemma {:induction false} AppendAfterCrashes(content: seq<Byte>, attempts: seq<Attempt>, body: seq<Byte>)
    requires (forall a :: a in attempts ==> a.Valid()) && IsBody(body)
    ensures After(AfterAll(content, attempts), Wrote(body, |body| + 1))
         == CompletePrefix(content) + Records(LandedBodies(attempts) + [body])
  {
    CrashesLoseOnlyTornRecords(content, attempts);
    var bodies := LandedBodies(attempts);
    assert Record(body)[..|body| + 1] == Record(body);
    assert (bodies + [body])[..|bodies|] == bodies;
    assert CompletePrefix(content) + Records(bodies) + Record(body)
      == CompletePrefix(content) + (Records(bodies) + Record(body));
  }

  // ---------------------------------------------------------------- reading back

  /** The newline-terminated lines of a file. */
  function Lines(content: seq<Byte>): seq<seq<Byte>>
    decreases |content|
  {
    var whole := CompletePrefix(content);
    if whole == [] then []
    else
      var rest := CompletePrefix(whole[..|whole| - 1]);
      Lines(rest) + [whole[|rest|..|whole| - 1]]
  }

  /** Reading the records back gives the bodies that were written, torn tail or not. */
  lemma {:induction false} LinesOfRecords(bodies: seq<seq<Byte>>, tail: seq<Byte>)
    requires (forall i :: 0 <= i < |bodies| ==> IsBody(bodies[i])) && NEWLINE !in tail
    ensures Lines(Records(bodies) + tail) == bodies
    decreases |bodies|
  {
    hide Lines, CompletePrefix;
    RecordsEnd(bodies);
    RepairDropsTail(Records(bodies), tail);
    if bodies == [] {
      NoLines(Records(bodies) + tail);
    } else {
      var n := |bodies| - 1;
      var front, b := Records(bodies[..n]), bodies[n];
      RecordsEnd(bodies[..n]);
      RepairDropsTail(front, b);
      LinesStep(Records(bodies) + tail, front, b);
      LinesOfRecords(bodies[..n], []);
      assert front + [] == front;
      assert bodies == bodies[..n] + [b];
    }
  }

  lemma {:induction false} NoLines(content: seq<Byte>)
    requires CompletePrefix(content) == []
    ensures Lines(content) == []
  {
  }

  lemma {:induction false} LinesStep(content: seq<Byte>, front: seq<Byte>, body: seq<Byte>)
    requires CompletePrefix(content) == front + Record(body)
    requires CompletePrefix(front + body) == front
    ensures Lines(content) == Lines(front) + [body]
  {
    hide CompletePrefix;
    var whole := CompletePrefix(content);
    assert whole[..|whole| - 1] == front + body;
    assert whole[|front|..|whole| - 1] == body;
  }

  lemma {:induction false} RecordsEnd(bodies: seq<seq<Byte>>)
    ensures Records(bodies) == [] || Records(bodies)[|Records(bodies)| - 1] == NEWLINE
  {
  }
}
