/**
 Backup and restore end to end: chunker, sender and server on the way in, decoder and
 retriever on the way out. The comparison of the restored file with the original that
 README.md of the repository asks for, for all files.
 */
module EndToEnd {
  import opened Sequences
  import opened Bytes
  import opened Codec
  import opened DedupStore
  import opened DedupSessions
  import opened StorageServer
  import opened DataSender
  import opened RecvDecoder
  import opened DataRetriever
  import opened Chunker

  /** The ciphertext chunks of each file, as they are uploaded. */
  function Encrypted(cfg: Config, z: Codec, files: seq<Data>): (ups: seq<seq<Data>>)
    requires ValidConfig(cfg)
    ensures |ups| == |files|
  {
    seq(|files|, i requires 0 <= i < |files| => Ciphers(z, Chunks(cfg, files[i])))
  }

  /** The hypotheses about the environment and the primitives. */
  ghost predicate Setting(cfg: Config, sv: Setup) {
    && ValidConfig(cfg) && cfg.maxSize <= sv.z.maxChunk <= U32_MAX
    && Environment(sv) && CipherLaws(sv.z)
  }

  /** The hypotheses about the uploaded chunks: no two different ones share a fingerprint,
      and none that is stored raw decodes as something else. */
  ghost predicate Distinguishable(z: Codec, chunks: seq<Data>) {
    && NoCollisions(z, chunks)
    && forall c {:trigger Recoverable(z, c)} :: c in chunks ==> Recoverable(z, c)
  }

  lemma FileChunks(cfg: Config, sv: Setup, file: Data)
    requires Setting(cfg, sv)
    ensures AllChunks(sv.z, Chunks(cfg, file)) && AllChunks(sv.z, Ciphers(sv.z, Chunks(cfg, file)))
    ensures Framable(Ciphers(sv.z, Chunks(cfg, file)))
  {
    hide Chunks, Environment, CipherLaws, ValidConfig;
    var cs := Chunks(cfg, file);
    forall i | 0 <= i < |cs|
      ensures IsChunk(sv.z, cs[i])
    {
      ChunkSizes(cfg, file, i);
    }
    CipherChunks(sv.z, cs);
  }

  lemma EncryptedChunks(cfg: Config, sv: Setup, files: seq<Data>)
    requires Setting(cfg, sv)
    ensures ChunkLists(sv.z, Encrypted(cfg, sv.z, files))
  {
    hide Environment, CipherLaws, ValidConfig, Chunks, Ciphers;
    forall i | 0 <= i < |files|
      ensures AllChunks(sv.z, Encrypted(cfg, sv.z, files)[i])
    {
      FileChunks(cfg, sv, files[i]);
    }
  }

  lemma {:induction false} InFlatten<T>(parts: seq<seq<T>>, i: nat, j: nat)
    requires i < |parts| && j < |parts[i]|
    ensures parts[i][j] in Flatten(parts)
  {
    if i > 0 {
      InFlatten(parts[1..], i - 1, j);
    }
  }

  lemma {:induction false} ContainersFit(files: seq<Container>, max: nat, n: Name)
    requires forall i :: 0 <= i < |files| ==> |files[i].body| < max
    requires n in Disk(files)
    ensures |Disk(files)[n]| < max
  {
    var k := |files| - 1;
    if n != files[k].name {
      ContainersFit(files[..k], max, n);
    }
  }

  /** Entry `j` of recipe `i` can be read and leads to ciphertext chunk `j` of file `i`. */
  lemma EntryComesBack(sv: Setup, ups: seq<seq<Data>>, i: nat, j: nat)
    requires Environment(sv) && ChunkLists(sv.z, ups) && Distinguishable(sv.z, Flatten(ups))
    requires i < |ups| && j < |ups[i]|
    ensures var (st, recipes) := Uploads(sv, ups);
      && |recipes[i]| == |ups[i]| && Fetch(sv.z, Disk(st.files), recipes[i][j]) == ups[i][j]
      && Loadable(Disk(st.files), sv.maxContainer, recipes[i][j].container)
      && Proper(sv.z, Disk(st.files), recipes[i][j])
  {
    hide Payload, Recover, Disk, NoCollisions, Recoverable, FirstWith, IndexOk, Tiled, NamesOk, Balanced, Uploads, Seen;
    var z, hist, c := sv.z, Flatten(ups), ups[i][j];
    var (st, recipes) := Uploads(sv, ups);
    InFlatten(ups, i, j);
    FirstIsItself(z, hist, c);
    RestoredIffFirst(sv, ups, i, j);
    UploadsResolve(sv, ups);
    assert Leads(z, Disk(st.files), hist, ups[i], recipes[i]);
    var a := recipes[i][j];
    assert Resolves(Disk(st.files), a, Payload(z, FirstWith(z, hist, z.hash(c))));
    UploadsSettle(sv, ups);
    ContainersFit(st.files, sv.maxContainer, a.container);
    assert IsChunk(z, c);
  }

  /** After any sequence of uploads, the recipe of every one of them leads to the file: the
      stored bytes at entry `j`, decoded and decrypted with key `j`, are chunk `j`. */
  lemma EveryFileComesBack(cfg: Config, sv: Setup, files: seq<Data>, i: nat)
    requires Setting(cfg, sv) && Distinguishable(sv.z, Flatten(Encrypted(cfg, sv.z, files))) && i < |files|
    ensures var (st, recipes) := Uploads(sv, Encrypted(cfg, sv.z, files));
      var chunks := Chunks(cfg, files[i]);
      var fetched := Fetched(sv.z, Disk(st.files), recipes[i]);
      && AllLoadable(Disk(st.files), sv.maxContainer, recipes[i]) && AllProper(sv.z, Disk(st.files), recipes[i])
      && fetched == Ciphers(sv.z, chunks)
      && Decrypted(sv.z, Keys(sv.z, chunks), fetched) == chunks
      && Flatten(chunks) == files[i]
  {
    hide Uploads, Disk, Fetch, Loadable, Proper, Distinguishable, Chunks, Environment, ValidConfig, CipherLaws;
    var z, ups := sv.z, Encrypted(cfg, sv.z, files);
    var chunks := Chunks(cfg, files[i]);
    var (st, recipes) := Uploads(sv, ups);
    EncryptedChunks(cfg, sv, files);
    UploadsResolve(sv, ups);
    assert |recipes[i]| == |ups[i]| by {
      assert Leads(z, Disk(st.files), Flatten(ups), ups[i], recipes[i]);
    }
    forall j | 0 <= j < |ups[i]|
      ensures Fetch(z, Disk(st.files), recipes[i][j]) == ups[i][j]
      ensures Loadable(Disk(st.files), sv.maxContainer, recipes[i][j].container)
      ensures Proper(z, Disk(st.files), recipes[i][j])
    {
      EntryComesBack(sv, ups, i, j);
    }
    var fetched := Fetched(z, Disk(st.files), recipes[i]);
    assert fetched == Ciphers(z, chunks);
    DecryptedPrefix(z, chunks, fetched);
    assert chunks[..|chunks|] == chunks;
    ChunksCover(cfg, files[i]);
  }

  // ----- running the whole system -----

  /** What the client keeps of an upload, and what the server keeps beside the containers. */
  datatype Backup = Backup(keys: seq<Data>, recipe: seq<Address>, head: RecipeHead)

  /** The batch sizes and the buffer size of one side. */
  datatype Batching = Batching(readSize: nat, chunkBatch: nat, recipeBatch: nat)

  predicate ValidBatching(cfg: Config, b: Batching) {
    && cfg.maxSize <= b.readSize <= U32_MAX
    && b.chunkBatch > 0 && b.recipeBatch > 0 && Multiple(b.recipeBatch, b.chunkBatch)
  }

  /** One upload: chunk, encrypt, send, deduplicate, store. */
  method BackUp(server: Server, cfg: Config, file: Data, b: Batching) returns (r: Backup)
    requires server.Valid() && Setting(cfg, server.sv) && ValidBatching(cfg, b)
    modifies server, server.body, server.entryList
    ensures var cs := Chunks(cfg, file);
      var up := Upload(server.sv, old(server.View()), Ciphers(server.sv.z, cs));
      && server.Valid() && server.View() == up.0
      && server.inputMQ == [] && server.disk == Disk(server.files)
      && r == Backup(Keys(server.sv.z, cs), up.1, RecipeHead(|file|, |cs|))
  {
    hide Chunks, Ciphers, Keys, Upload, Disk, CutPoint, Terminates;
    var z := server.sv.z;
    TerminatesIff(cfg, file, b.readSize);
    var chunks, fileSize, chunkNum := FastCDC(cfg, file, b.readSize);
    FileChunks(cfg, server.sv, file);
    var sender := new Sender(z, b.chunkBatch, b.recipeBatch);
    sender.Run(chunks, RecipeHead(fileSize, chunkNum));
    CarriedChunks(z, b.chunkBatch, sender.sent, sender.css);
    server.Receive(sender.sent, sender.css);
    r := Backup(sender.keyRecipeFile, server.recipeFile, server.recipeHead);
  }

  /** One restore: fetch, decode, send, decrypt. The client finishes exactly if the decoder
      has ids in use at the end of the recipe, and then it has every chunk; otherwise it
      waits forever for a FINAL, with less than one batch missing. */
  method Restore(z: Codec, disk: map<Name, Data>, maxContainer: nat, backup: Backup, b: Batching, cacheSize: nat,
                 ghost cs: seq<Data>) returns (status: Status, output: seq<Data>)
    requires CipherLaws(z) && z.maxChunk <= U32_MAX && b.chunkBatch > 0 && b.recipeBatch > 0 && cacheSize >= 1
    requires AllLoadable(disk, maxContainer, backup.recipe) && AllProper(z, disk, backup.recipe)
    requires Fetched(z, disk, backup.recipe) == Ciphers(z, cs)
    requires backup.keys == Keys(z, cs) && backup.head.totalChunkNum == |cs|
    ensures if IdCount(0, backup.recipe, b.recipeBatch) != 0
      then status == Finished && output == cs
      else status == Waiting && output <= cs && |cs| - |output| < b.chunkBatch
  {
    hide Fetched, Ciphers, Keys, IdCount, AllLoadable, AllProper, CipherLaws, Delivers;
    var decoder := new Decoder(z, disk, maxContainer, b.chunkBatch, cacheSize);
    var ok := decoder.Run(backup.recipe, b.recipeBatch);
    var retriever := new Retriever(z, backup.keys, backup.head, seq(b.chunkBatch, i => []));
    status := retriever.Run(decoder.sent, b.chunkBatch, decoder.css);
    output := retriever.outputMQ;
    AllReceived(b.chunkBatch, decoder.sent, decoder.css, IdCount(0, backup.recipe, b.recipeBatch) != 0);
    EnoughKeys(z, backup.keys, Flatten(decoder.css), output);
    DecryptedPrefix(z, cs, Flatten(decoder.css));
  }

  /** Every message up to the FINAL, or every message, is received. */
  lemma AllReceived(batch: nat, sent: seq<ServerMessage>, css: seq<seq<Data>>, final: bool)
    requires Delivers(batch, sent, css) && EndsWithFinal(sent, final)
    ensures css[..UntilFinal(sent)] == css
    ensures (forall i :: 0 <= i < |sent| ==> sent[i].RestoreChunk?) <==> !final
  {
    if final {
      FirstFinal(sent, |sent| - 1);
    } else {
      NoFinal(sent);
    }
  }

  lemma CarriedChunks(z: Codec, batch: nat, msgs: seq<ClientMessage>, css: seq<seq<Data>>)
    requires Carries(z, batch, msgs, css) && AllChunks(z, Flatten(css)) && z.maxChunk <= U32_MAX
    ensures forall i {:trigger css[i]} :: 0 <= i < |css| ==> AllChunks(z, css[i]) && Framable(css[i])
  {
    forall i | 0 <= i < |css|
      ensures AllChunks(z, css[i]) && Framable(css[i])
    {
      forall j | 0 <= j < |css[i]|
        ensures IsChunk(z, css[i][j])
      {
        InFlatten(css, i, j);
      }
    }
  }

  /** Back up all the files one after the other on an empty server, then restore any one of
      them: its bytes come back if the client finishes, and it finishes exactly if the
      decoder has ids in use at the end of that recipe. */
  method BackUpAllRestoreOne(server: Server, cfg: Config, files: seq<Data>, k: nat, up: Batching, down: Batching,
                             cacheSize: nat)
    returns (status: Status, restored: Data, ghost recipe: seq<Address>)
    requires server.Valid() && server.View() == Empty(server.sv) && Setting(cfg, server.sv)
    requires ValidBatching(cfg, up) && down.chunkBatch > 0 && down.recipeBatch > 0 && cacheSize >= 1 && k < |files|
    requires Distinguishable(server.sv.z, Flatten(Encrypted(cfg, server.sv.z, files)))
    modifies server, server.body, server.entryList
    ensures recipe == Uploads(server.sv, Encrypted(cfg, server.sv.z, files)).1[k]
    ensures if IdCount(0, recipe, down.recipeBatch) != 0
      then status == Finished && restored == files[k]
      else status == Waiting && restored <= files[k]
  {
    hide Environment, CipherLaws, ValidConfig, Distinguishable, Upload, Disk, Chunks, Fetched;
    hide Decrypted, IdCount, Ciphers, Keys, AllLoadable, AllProper, ValidBatching;
    var sv := server.sv;
    var backups: seq<Backup> := [];
    for i := 0 to |files|
      invariant server.Valid() && |backups| == i
      invariant forall j :: 0 <= j < i ==> backups[j].keys == Keys(sv.z, Chunks(cfg, files[j]))
      invariant forall j :: 0 <= j < i ==> backups[j].head.totalChunkNum == |Chunks(cfg, files[j])|
      invariant server.View() == Uploads(sv, Encrypted(cfg, sv.z, files[..i])).0
      invariant forall j :: 0 <= j < i ==> backups[j].recipe == Uploads(sv, Encrypted(cfg, sv.z, files[..i])).1[j]
      invariant i > 0 ==> server.disk == Disk(server.files)
    {
      var b := BackUp(server, cfg, files[i], up);
      OneMoreUpload(cfg, sv, files, i);
      backups := backups + [b];
    }
    assert files[..|files|] == files;
    ghost var cs := Chunks(cfg, files[k]);
    recipe := backups[k].recipe;
    EveryFileComesBack(cfg, sv, files, k);
    var output;
    status, output := Restore(sv.z, server.disk, sv.maxContainer, backups[k], down, cacheSize, cs);
    restored := Flatten(output);
    FlattenPrefix(output, cs);
  }

  lemma OneMoreUpload(cfg: Config, sv: Setup, files: seq<Data>, i: nat)
    requires ValidConfig(cfg) && i < |files|
    ensures var (s1, recipes) := Uploads(sv, Encrypted(cfg, sv.z, files[..i]));
      var (s2, recipe) := Upload(sv, s1, Ciphers(sv.z, Chunks(cfg, files[i])));
      Uploads(sv, Encrypted(cfg, sv.z, files[..i + 1])) == (s2, recipes + [recipe])
  {
    hide Upload, Ciphers, Chunks;
    var ups := Encrypted(cfg, sv.z, files[..i + 1]);
    assert ups[..i] == Encrypted(cfg, sv.z, files[..i]);
  }

  lemma FlattenPrefix<T>(a: seq<seq<T>>, b: seq<seq<T>>)
    requires a <= b
    ensures Flatten(a) <= Flatten(b)
  {
    FlattenAppend(a, b[|a|..]);
    assert b == a + b[|a|..];
  }
}
