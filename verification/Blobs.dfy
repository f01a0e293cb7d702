/** The blob plane: convergent chunk encryption, its manifest, and reassembly. */
module Blobs {
  import opened Bytes
  import opened SymbolicCrypto

  const CHUNK_MAX: nat := 64 * 1024
  const TAG_LEN: nat := 16

  type VaultKey = nat

  /** SHA-256 as a free term: a digest names its preimage. */
  datatype ContentHash = ContentHash(content: bytes)

  datatype ChunkKey = ChunkKey(vault: VaultKey, salt: ContentHash)
  datatype ChunkNonce = ChunkNonce(key: ChunkKey, index: nat)
  datatype Aad = Aad(hash: ContentHash, index: nat, totalChunks: nat, totalSize: nat)

  type ChunkCiphertext = Ciphertext<ChunkKey, ChunkNonce, Aad>

  function Length(c: ChunkCiphertext): nat {
    match c
    case Sealed(_, _, _, plaintext) => |plaintext| + TAG_LEN
    case Noise(content) => |content|
  }

  datatype BlobId = BlobId(ciphertext: ChunkCiphertext)

  datatype Chunk = Chunk(blobId: BlobId, hash: ContentHash, ciphertext: ChunkCiphertext)
  datatype Entry = Entry(hash: ContentHash, blobId: BlobId, ciphertextLen: nat)
  datatype Manifest = Manifest(totalSize: nat, entries: seq<Entry>)

  type ChunkMap = map<BlobId, ChunkCiphertext>

  datatype BlobError = ChunkMissing(index: nat) | ChunkMismatch(index: nat) | ChunkOpen(index: nat)

  // ---- splitting ----

  /** The plaintext pieces: as many full chunks as fit, then the rest; an empty blob is one empty piece. */
  function Pieces(plaintext: bytes): (pieces: seq<bytes>)
    ensures |pieces| >= 1
    decreases |plaintext|
  {
    if |plaintext| <= CHUNK_MAX then [plaintext]
    else [plaintext[..CHUNK_MAX]] + Pieces(plaintext[CHUNK_MAX..])
  }

  function Joined(pieces: seq<bytes>): bytes {
    if pieces == [] then [] else pieces[0] + Joined(pieces[1..])
  }

  /** The pieces lose nothing, none exceeds the chunk size, and only the last may be short. */
  lemma {:induction false} PiecesCover(plaintext: bytes)
    ensures Joined(Pieces(plaintext)) == plaintext
    ensures forall i | 0 <= i < |Pieces(plaintext)| :: |Pieces(plaintext)[i]| <= CHUNK_MAX
    ensures forall i | 0 <= i < |Pieces(plaintext)| - 1 :: |Pieces(plaintext)[i]| == CHUNK_MAX
    decreases |plaintext|
  {
    if |plaintext| > CHUNK_MAX {
      PiecesCover(plaintext[CHUNK_MAX..]);
      assert plaintext == plaintext[..CHUNK_MAX] + plaintext[CHUNK_MAX..];
    } else {
      assert Joined([plaintext]) == plaintext + [];
    }
  }

  function SealPiece(vault: VaultKey, piece: bytes, index: nat, totalChunks: nat, totalSize: nat): ChunkCiphertext {
    var hash := ContentHash(piece);
    var key := ChunkKey(vault, hash);
    Sealed(key, ChunkNonce(key, index), Aad(hash, index, totalChunks, totalSize), piece)
  }

  function EntryFor(vault: VaultKey, pieces: seq<bytes>, index: nat, totalSize: nat): Entry
    requires index < |pieces|
  {
    var c := SealPiece(vault, pieces[index], index, |pieces|, totalSize);
    Entry(ContentHash(pieces[index]), BlobId(c), Length(c))
  }

  /** The manifest and the chunks agree entry by entry with the sealed pieces. */
  ghost predicate Describes(vault: VaultKey, pieces: seq<bytes>, m: Manifest, chunks: seq<Chunk>) {
    && |m.entries| == |pieces| == |chunks|
    && (forall i | 0 <= i < |pieces| :: m.entries[i] == EntryFor(vault, pieces, i, m.totalSize))
    && (forall i | 0 <= i < |pieces| ::
          chunks[i] == Chunk(m.entries[i].blobId, m.entries[i].hash, m.entries[i].blobId.ciphertext))
  }

  /** `slice::chunks`: consecutive windows of at most `CHUNK_MAX` bytes. */
  method Split(plaintext: bytes) returns (slices: seq<bytes>)
    ensures slices == Pieces(plaintext)
  {
    if plaintext == [] {
      return [[]];
    }
    slices := [];
    var rest := plaintext;
    while |rest| > CHUNK_MAX
      invariant rest != []
      invariant slices + Pieces(rest) == Pieces(plaintext)
      decreases |rest|
    {
      Regroup(slices, [rest[..CHUNK_MAX]], Pieces(rest[CHUNK_MAX..]));
      slices := slices + [rest[..CHUNK_MAX]];
      rest := rest[CHUNK_MAX..];
    }
    slices := slices + [rest];
  }

  method SplitAndEncrypt(vault: VaultKey, plaintext: bytes) returns (chunks: seq<Chunk>, manifest: Manifest)
    ensures manifest.totalSize == |plaintext|
    ensures Describes(vault, Pieces(plaintext), manifest, chunks)
  {
    var totalSize := |plaintext|;
    var slices := Split(plaintext);
    var totalChunks := |slices|;
    chunks := [];
    var entries: seq<Entry> := [];
    for index := 0 to totalChunks
      invariant |chunks| == |entries| == index
      invariant forall i | 0 <= i < index :: entries[i] == EntryFor(vault, slices, i, totalSize)
      invariant forall i | 0 <= i < index ::
                  chunks[i] == Chunk(entries[i].blobId, entries[i].hash, entries[i].blobId.ciphertext)
    {
      var hash := ContentHash(slices[index]);
      var key := ChunkKey(vault, hash);
      var ciphertext := Sealed(key, ChunkNonce(key, index), Aad(hash, index, totalChunks, totalSize), slices[index]);
      var blobId := BlobId(ciphertext);
      entries := entries + [Entry(hash, blobId, Length(ciphertext))];
      chunks := chunks + [Chunk(blobId, hash, ciphertext)];
    }
    manifest := Manifest(totalSize, entries);
  }

  // ---- reassembly ----

  /** What one manifest entry yields. */
  function OpenEntry(vault: VaultKey, m: Manifest, chunks: ChunkMap, index: nat): Result<bytes, BlobError>
    requires index < |m.entries|
  {
    var e := m.entries[index];
    if e.blobId !in chunks then Err(ChunkMissing(index))
    else if Length(chunks[e.blobId]) != e.ciphertextLen then Err(ChunkMismatch(index))
    else
      var key := ChunkKey(vault, e.hash);
      match Decrypt(key, ChunkNonce(key, index), Aad(e.hash, index, |m.entries|, m.totalSize), chunks[e.blobId])
      case None => Err(ChunkOpen(index))
      case Some(plaintext) =>
        if ContentHash(plaintext) != e.hash then Err(ChunkMismatch(index)) else Ok(plaintext)
  }

  /** Reassembly from entry `index` on, behind what was already produced. */
  function ReassembleFrom(vault: VaultKey, m: Manifest, chunks: ChunkMap, index: nat, produced: bytes): Result<bytes, BlobError>
    requires index <= |m.entries|
    decreases |m.entries| - index
  {
    if index == |m.entries| then
      if |produced| != m.totalSize then Err(ChunkMismatch(index)) else Ok(produced)
    else
      match OpenEntry(vault, m, chunks, index)
      case Err(e) => Err(e)
      case Ok(plaintext) => ReassembleFrom(vault, m, chunks, index + 1, produced + plaintext)
  }

  method DecryptAndReassemble(vault: VaultKey, m: Manifest, chunks: ChunkMap) returns (r: Result<bytes, BlobError>)
    ensures r == ReassembleFrom(vault, m, chunks, 0, [])
  {
    var totalChunks := |m.entries|;
    var plaintext: bytes := [];
    for index := 0 to totalChunks
      invariant ReassembleFrom(vault, m, chunks, 0, []) == ReassembleFrom(vault, m, chunks, index, plaintext)
    {
      var entry := m.entries[index];
      if entry.blobId !in chunks {
        return Err(ChunkMissing(index));
      }
      var ciphertext := chunks[entry.blobId];
      if Length(ciphertext) != entry.ciphertextLen {
        return Err(ChunkMismatch(index));
      }
      var key := ChunkKey(vault, entry.hash);
      var decrypted := Decrypt(key, ChunkNonce(key, index), Aad(entry.hash, index, totalChunks, m.totalSize), ciphertext);
      if decrypted.None? {
        return Err(ChunkOpen(index));
      }
      if ContentHash(decrypted.value) != entry.hash {
        return Err(ChunkMismatch(index));
      }
      plaintext := plaintext + decrypted.value;
    }
    if |plaintext| != m.totalSize {
      return Err(ChunkMismatch(totalChunks));
    }
    return Ok(plaintext);
  }

  // ---- round trip ----

  lemma PieceReopens(vault: VaultKey, pieces: seq<bytes>, m: Manifest, chunks: seq<Chunk>, fetched: ChunkMap, index: nat)
    requires Describes(vault, pieces, m, chunks) && index < |pieces|
    requires chunks[index].blobId in fetched && fetched[chunks[index].blobId] == chunks[index].ciphertext
    ensures OpenEntry(vault, m, fetched, index) == Ok(pieces[index])
  {
    assert m.entries[index] == EntryFor(vault, pieces, index, m.totalSize);
  }

  lemma {:induction false} PiecesReassemble(vault: VaultKey, pieces: seq<bytes>, m: Manifest, chunks: seq<Chunk>,
                                            fetched: ChunkMap, index: nat, produced: bytes)
    requires Describes(vault, pieces, m, chunks) && index <= |pieces|
    requires forall c | c in chunks :: c.blobId in fetched && fetched[c.blobId] == c.ciphertext
    requires m.totalSize == |produced + Joined(pieces[index..])|
    ensures ReassembleFrom(vault, m, fetched, index, produced) == Ok(produced + Joined(pieces[index..]))
    decreases |pieces| - index
  {
    if index == |pieces| {
      assert produced + [] == produced;
    } else {
      PieceReopens(vault, pieces, m, chunks, fetched, index);
      assert pieces[index..][1..] == pieces[index + 1..];
      Regroup(produced, pieces[index], Joined(pieces[index + 1..]));
      PiecesReassemble(vault, pieces, m, chunks, fetched, index + 1, produced + pieces[index]);
    }
  }

  /** Whatever else the map holds, the produced chunks give back exactly the plaintext. */
  lemma BlobRoundTrip(vault: VaultKey, plaintext: bytes, m: Manifest, chunks: seq<Chunk>, fetched: ChunkMap)
    requires m.totalSize == |plaintext| && Describes(vault, Pieces(plaintext), m, chunks)
    requires forall c | c in chunks :: c.blobId in fetched && fetched[c.blobId] == c.ciphertext
    ensures ReassembleFrom(vault, m, fetched, 0, []) == Ok(plaintext)
  {
    var pieces := Pieces(plaintext);
    PiecesCover(plaintext);
    assert pieces[0..] == pieces;
    assert [] + Joined(pieces) == plaintext;
    PiecesReassemble(vault, pieces, m, chunks, fetched, 0, []);
  }

  // ---- integrity ----

  /** The plaintext a manifest's own hashes stand for. */
  function Promised(m: Manifest, index: nat): bytes
    requires index <= |m.entries|
    decreases |m.entries| - index
  {
    if index == |m.entries| then [] else m.entries[index].hash.content + Promised(m, index + 1)
  }

  /** The fetched chunk of an entry is exactly the seal of what the entry's hash names, at this place in this blob. */
  predicate Genuine(vault: VaultKey, m: Manifest, chunks: ChunkMap, index: nat)
    requires index < |m.entries|
  {
    var e := m.entries[index];
    e.blobId in chunks
    && chunks[e.blobId] == SealPiece(vault, e.hash.content, index, |m.entries|, m.totalSize)
    && e.ciphertextLen == |e.hash.content| + TAG_LEN
  }

  lemma EntryOpensIffGenuine(vault: VaultKey, m: Manifest, chunks: ChunkMap, index: nat)
    requires index < |m.entries|
    ensures OpenEntry(vault, m, chunks, index).Ok? <==> Genuine(vault, m, chunks, index)
    ensures OpenEntry(vault, m, chunks, index).Ok? ==>
              OpenEntry(vault, m, chunks, index).value == m.entries[index].hash.content
  {
  }

  /**
   Reassembly succeeds exactly when every fetched chunk is genuine and the sizes add up; it then returns
   what the manifest promises, whatever else was fetched.
   */
  lemma {:induction false} ReassemblyIsAuthentic(vault: VaultKey, m: Manifest, chunks: ChunkMap, index: nat, produced: bytes)
    requires index <= |m.entries|
    ensures var r := ReassembleFrom(vault, m, chunks, index, produced);
            && (r.Ok? <==> (forall i | index <= i < |m.entries| :: Genuine(vault, m, chunks, i))
                           && |produced + Promised(m, index)| == m.totalSize)
            && (r.Ok? ==> r.value == produced + Promised(m, index))
    decreases |m.entries| - index
  {
    hide Genuine, OpenEntry;
    if index == |m.entries| {
      assert produced + [] == produced;
    } else {
      EntryOpensIffGenuine(vault, m, chunks, index);
      var piece := m.entries[index].hash.content;
      ReassemblyIsAuthentic(vault, m, chunks, index + 1, produced + piece);
      Regroup(produced, piece, Promised(m, index + 1));
    }
  }

  /** A manifest pins the plaintext: no two chunk maps or keys can make it yield different blobs. */
  lemma ManifestPinsThePlaintext(vault: VaultKey, vault': VaultKey, m: Manifest, chunks: ChunkMap, chunks': ChunkMap)
    requires ReassembleFrom(vault, m, chunks, 0, []).Ok? && ReassembleFrom(vault', m, chunks', 0, []).Ok?
    ensures ReassembleFrom(vault, m, chunks, 0, []) == ReassembleFrom(vault', m, chunks', 0, [])
  {
    ReassemblyIsAuthentic(vault, m, chunks, 0, []);
    ReassemblyIsAuthentic(vault', m, chunks', 0, []);
  }

  /**
   A refusal names the first chunk that is not genuine, as missing exactly when nothing was fetched for it,
   or, past the last chunk, sizes that do not add up.
   */
  lemma {:induction false} RefusalNamesTheFirstBadChunk(vault: VaultKey, m: Manifest, chunks: ChunkMap, index: nat, produced: bytes)
    requires index <= |m.entries| && ReassembleFrom(vault, m, chunks, index, produced).Err?
    ensures var e := ReassembleFrom(vault, m, chunks, index, produced).error;
            && index <= e.index <= |m.entries|
            && (forall i | index <= i < e.index :: Genuine(vault, m, chunks, i))
            && (if e.index == |m.entries| then e.ChunkMismatch? && |produced + Promised(m, index)| != m.totalSize
                else !Genuine(vault, m, chunks, e.index)
                     && (e.ChunkMissing? <==> m.entries[e.index].blobId !in chunks))
    decreases |m.entries| - index
  {
    if index == |m.entries| {
      assert produced + [] == produced;
    } else {
      EntryOpensIffGenuine(vault, m, chunks, index);
      EntryMissing(vault, m, chunks, index);
      hide Genuine, OpenEntry;
      var piece := m.entries[index].hash.content;
      if OpenEntry(vault, m, chunks, index).Ok? {
        RefusalNamesTheFirstBadChunk(vault, m, chunks, index + 1, produced + piece);
        Regroup(produced, piece, Promised(m, index + 1));
      }
    }
  }

  lemma EntryMissing(vault: VaultKey, m: Manifest, chunks: ChunkMap, index: nat)
    requires index < |m.entries|
    ensures OpenEntry(vault, m, chunks, index).Err? ==>
              var e := OpenEntry(vault, m, chunks, index).error;
              e.index == index && (e.ChunkMissing? <==> m.entries[index].blobId !in chunks)
  {
  }
}
