/** What respondToGET sends, step by step (myserver.cc:335-383): each step
  * sends min(PACK_SIZ, filesize - filepos) bytes read from offset filepos, then
  * advances filepos by the full PACK_SIZ; the transfer ends once filepos reaches
  * filesize. These functions describe the bytes and the steps; the Server module
  * performs them on its queue. */
module Transfer {

  /** Size of each packet sent to the client (myserver.cc:27). */
  const PACK_SIZ := 1450

  /** Length of the string one step sends (myserver.cc:353-364): a whole packet,
    * or what is left of the file when that is less. */
  function ChunkLen(filesize: int, filepos: int): (n: int)
    ensures n <= PACK_SIZ
    ensures n == PACK_SIZ || n == filesize - filepos
    ensures filepos <= filesize ==> 0 <= n <= filesize - filepos
    ensures filepos + PACK_SIZ <= filesize ==> n == PACK_SIZ
  {
    if filesize - filepos < PACK_SIZ then filesize - filepos else PACK_SIZ
  }

  /** The n-byte string a step sends: the file's bytes from offset filepos;
    * where the read finds no more file (a file that shrank or could not be
    * opened) the string keeps the NUL that resize filled it with. */
  function Chunk(content: string, filepos: nat, n: nat): (c: string)
    ensures |c| == n
  {
    seq(n, i requires 0 <= i < n => if filepos + i < |content| then content[filepos + i] else '\0')
  }

  /** Whether a step that started at filepos finished the transfer (myserver.cc:368-371). */
  predicate Finishes(filesize: int, filepos: int)
  {
    filepos + PACK_SIZ >= filesize
  }

  /** Everything the steps from filepos on send after the header, in order, the
    * file holding `content` throughout. */
  function Stream(content: string, filesize: int, filepos: nat): string
    requires filepos <= filesize
    decreases filesize - filepos
  {
    var chunk := Chunk(content, filepos, ChunkLen(filesize, filepos));
    if Finishes(filesize, filepos) then chunk else chunk + Stream(content, filesize, filepos + PACK_SIZ)
  }

  /** How many steps the request stays in the queue for, from filepos on. */
  function Steps(filesize: int, filepos: nat): nat
    requires filepos <= filesize
    decreases filesize - filepos
  {
    1 + if Finishes(filesize, filepos) then 0 else Steps(filesize, filepos + PACK_SIZ)
  }

  /** The steps send exactly filesize - filepos bytes, whatever the file holds. */
  lemma {:induction false} StreamLength(content: string, filesize: int, filepos: nat)
    requires filepos <= filesize
    ensures |Stream(content, filesize, filepos)| == filesize - filepos
    decreases filesize - filepos
  {
    if !Finishes(filesize, filepos) {
      StreamLength(content, filesize, filepos + PACK_SIZ);
    }
  }

  /** When the file still has the size handleRequest measured, the steps send
    * the file from filepos on, in file order. */
  lemma {:induction false} StreamIsFile(content: string, filepos: nat)
    requires filepos <= |content|
    ensures Stream(content, |content|, filepos) == content[filepos..]
    decreases |content| - filepos
  {
    var n := ChunkLen(|content|, filepos);
    assert Chunk(content, filepos, n) == content[filepos..filepos + n];
    if !Finishes(|content|, filepos) {
      StreamIsFile(content, filepos + PACK_SIZ);
      assert content[filepos..] == content[filepos..filepos + n] + content[filepos + PACK_SIZ..];
    }
  }

  /** A transfer from filepos takes ceil((filesize - filepos) / PACK_SIZ) steps,
    * and one step for an empty remainder. */
  lemma {:induction false} StepsCount(filesize: int, filepos: nat)
    requires filepos <= filesize
    ensures Steps(filesize, filepos) ==
              if filesize == filepos then 1 else (filesize - filepos + PACK_SIZ - 1) / PACK_SIZ
    decreases filesize - filepos
  {
    if !Finishes(filesize, filepos) {
      StepsCount(filesize, filepos + PACK_SIZ);
    }
  }

  /** The cursor after the last step: filepos grows by PACK_SIZ per step, so it
    * ends at Steps * PACK_SIZ, at or past filesize and less than a packet past it. */
  lemma {:induction false} FinalCursor(filesize: int, filepos: nat)
    requires filepos <= filesize
    ensures filepos + Steps(filesize, filepos) * PACK_SIZ >= filesize
    ensures filepos < filesize ==> filepos + Steps(filesize, filepos) * PACK_SIZ < filesize + PACK_SIZ
    decreases filesize - filepos
  {
    if !Finishes(filesize, filepos) {
      FinalCursor(filesize, filepos + PACK_SIZ);
    }
  }

  /** A 3000-byte file: two whole packets and one of 100 bytes, in three steps;
    * the cursor goes 0, 1450, 2900 and ends at 4350, not at 3000. */
  lemma ThreeThousandBytes(content: string)
    requires |content| == 3000
    ensures Steps(3000, 0) == 3
    ensures ChunkLen(3000, 0) == 1450 && ChunkLen(3000, 1450) == 1450 && ChunkLen(3000, 2900) == 100
    ensures !Finishes(3000, 0) && !Finishes(3000, 1450) && Finishes(3000, 2900)
    ensures Stream(content, 3000, 0) == content
  {
    StreamIsFile(content, 0);
  }
}
