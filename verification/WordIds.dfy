/** Handing out word ids: 26 shard workers, one for each first letter, that run concurrently over one
    shared counter and one shared store, and clients that file the postings of the words they are granted.
    Each access to shared state is a step of its own. */
module WordIds {
  import opened Trigrams

  const SHARDS := 26

  // Words that are ever asked for.
  type Word = w: string | |w| >= 2 && IsWord(w) witness "aa"

  function Shard(w: Word): (s: nat)
    ensures s < SHARDS
  {
    Letter(w[0])
  }

  // Words go to the same worker exactly if they begin with the same letter.
  lemma ShardIsFirstLetter(v: Word, w: Word)
    ensures Shard(v) == Shard(w) <==> v[0] == w[0]
  {
    LettersAreInOrder(v[0], w[0]);
    LettersAreInOrder(w[0], v[0]);
  }

  // How far a worker has come with the request for a word.
  datatype Pc =
    | Idle
    | Looking(word: Word)                          // about to look into its cache
    | Missing(word: Word)                          // about to look into the store
    | Absent(word: Word)                           // about to take a number
    | Numbered(word: Word, id: nat)                // about to store word -> id
    | Recorded(word: Word, id: nat)                // about to store id -> word
    | Named(word: Word, id: nat)                   // about to fill its cache
    | Replying(word: Word, id: nat, loaded: bool)

  // How many trigrams of its word a client has filed, under the id it was given.
  datatype Progress = Progress(id: nat, next: nat)

  datatype State = State(
    counter: nat,
    ids: map<Word, nat>,           // store, word -> id
    names: map<nat, Word>,         // store, id -> word
    workers: seq<Pc>,
    caches: seq<map<Word, nat>>,   // one for each worker
    before: set<Word>,             // words known when the session began
    granted: multiset<Word>,       // replies with loaded == false
    replies: set<(Word, nat)>,     // all replies
    clients: map<Word, Progress>,  // those that were granted a word
    chunks: seq<seq<nat>>)         // posting files

  // `Evict` is the cache making room, at any time.
  datatype Act =
    | Receive(word: Word) | LoadCached | MissCache | LoadStored | MissStore
    | Number | RecordWord | RecordName | FillCache | Reply | Evict(word: Word)

  // `Post` is the client that was granted the word filing its next trigram.
  datatype Step = ByWorker(i: nat, act: Act) | Post(word: Word)

  ghost predicate Initial(s: State) {
    && |s.workers| == |s.caches| == SHARDS
    && (forall i :: 0 <= i < SHARDS ==> s.workers[i] == Idle && s.caches[i] == map[])
    && (forall w :: w in s.ids ==> s.ids[w] <= s.counter && IsNamed(s, w))
    && (forall n :: n in s.names ==> s.names[n] in s.ids && s.ids[s.names[n]] == n)
    && s.before == s.ids.Keys && s.granted == multiset{} && s.replies == {} && s.clients == map[]
    && AreExact(s.chunks, s.ids)
  }

  function Goes(s: State, i: nat, pc: Pc): State
    requires i < |s.workers|
  {
    s.(workers := s.workers[i := pc])
  }

  function Remember(m: map<Word, nat>, w: Word, id: nat): map<Word, nat> {
    m[w := id]
  }

  function Forget(m: map<Word, nat>, w: Word): map<Word, nat> {
    map v: Word | v in m && v != w :: m[v]
  }

  ghost predicate WorkerNext(s: State, i: nat, act: Act, s': State)
    requires i < |s.workers| && i < |s.caches|
  {
    var pc := s.workers[i];
    match act
    case Receive(w) =>
      pc.Idle? && Shard(w) == i && s' == Goes(s, i, Looking(w))
    case LoadCached =>
      pc.Looking? && pc.word in s.caches[i] && s' == Goes(s, i, Replying(pc.word, s.caches[i][pc.word], true))
    case MissCache =>
      pc.Looking? && pc.word !in s.caches[i] && s' == Goes(s, i, Missing(pc.word))
    case LoadStored =>
      pc.Missing? && pc.word in s.ids && s' == Goes(s, i, Replying(pc.word, s.ids[pc.word], true))
    case MissStore =>
      pc.Missing? && pc.word !in s.ids && s' == Goes(s, i, Absent(pc.word))
    case Number =>
      pc.Absent? && s' == Goes(s, i, Numbered(pc.word, s.counter + 1)).(counter := s.counter + 1)
    case RecordWord =>
      pc.Numbered? && s' == Goes(s, i, Recorded(pc.word, pc.id)).(ids := s.ids[pc.word := pc.id])
    case RecordName =>
      pc.Recorded? && s' == Goes(s, i, Named(pc.word, pc.id)).(names := s.names[pc.id := pc.word])
    case FillCache =>
      pc.Named? &&
      s' == Goes(s, i, Replying(pc.word, pc.id, false)).(caches := s.caches[i := Remember(s.caches[i], pc.word, pc.id)])
    case Reply =>
      pc.Replying? &&
      s' == Goes(s, i, Idle).(
        granted := if pc.loaded then s.granted else s.granted + multiset{pc.word},
        replies := s.replies + {(pc.word, pc.id)},
        clients := if pc.loaded then s.clients else s.clients[pc.word := Progress(pc.id, 0)])
    case Evict(w) =>
      s' == s.(caches := s.caches[i := Forget(s.caches[i], w)])
  }

  ghost predicate Next(s: State, step: Step, s': State) {
    match step
    case ByWorker(i, act) => i < |s.workers| && i < |s.caches| && WorkerNext(s, i, act, s')
    case Post(w) =>
      w in s.clients && s.clients[w].next < |AllTGrams(w)| && |s.chunks| == CHUNKS && s' == AfterPost(s, w)
  }

  lemma TGramIsWord(w: Word, n: nat)
    requires n < |AllTGrams(w)|
    ensures |AllTGrams(w)[n]| == 3 && IsWord(AllTGrams(w)[n]) && BiGramKey(AllTGrams(w)[n]) < CHUNKS
  {
    AllTGramsAre(w);
    assert AllTGrams(w)[n] in AllTGrams(w);
    TrigramIsWord(w, AllTGrams(w)[n]);
  }

  // The file of the trigram gets the id with the last letter.
  function AfterPost(s: State, w: Word): State
    requires w in s.clients && s.clients[w].next < |AllTGrams(w)| && |s.chunks| == CHUNKS
  {
    var Progress(id, next) := s.clients[w];
    var ng := AllTGrams(w)[next];
    TGramIsWord(w, next);
    s.(chunks := s.chunks[BiGramKey(ng) := s.chunks[BiGramKey(ng)] + [Encode(id, ng[2])]],
       clients := s.clients[w := Progress(id, next + 1)])
  }

  // ---------- Invariant ----------

  // The word has an id, and the id leads back to the word.
  ghost predicate IsNamed(s: State, w: Word) {
    w in s.ids && s.ids[w] in s.names && s.names[s.ids[w]] == w
  }

  ghost predicate StoreOk(s: State) {
    && |s.workers| == |s.caches| == SHARDS
    && (forall v, w :: v in s.ids && w in s.ids && s.ids[v] == s.ids[w] ==> v == w)
    && (forall n :: n in s.names ==> s.names[n] in s.ids && s.ids[s.names[n]] == n)
    && forall w :: w in s.ids ==>
         s.ids[w] <= s.counter && (IsNamed(s, w) || s.workers[Shard(w)] == Recorded(w, s.ids[w]))
  }

  ghost predicate PcOk(s: State, i: nat)
    requires i < |s.workers|
  {
    match s.workers[i]
    case Idle => true
    case Looking(w) => Shard(w) == i
    case Missing(w) => Shard(w) == i
    case Absent(w) => Shard(w) == i && w !in s.ids
    case Numbered(w, id) => Shard(w) == i && w !in s.ids && id <= s.counter && forall v :: v in s.ids ==> s.ids[v] != id
    case Recorded(w, id) => Shard(w) == i && w in s.ids && s.ids[w] == id && id !in s.names
    case Named(w, id) => Shard(w) == i && IsNamed(s, w) && s.ids[w] == id
    case Replying(w, id, _) => Shard(w) == i && IsNamed(s, w) && s.ids[w] == id
  }

  ghost predicate WorkersOk(s: State) {
    && (forall i :: 0 <= i < |s.workers| ==> PcOk(s, i))
    && forall i, j :: 0 <= i < j < |s.workers| && s.workers[i].Numbered? && s.workers[j].Numbered? ==>
         s.workers[i].id != s.workers[j].id
  }

  // What has left a worker is right: cached ids and replies.
  ghost predicate AnswersOk(s: State) {
    && (forall i, w :: 0 <= i < |s.caches| && w in s.caches[i] ==> IsNamed(s, w) && s.ids[w] == s.caches[i][w])
    && (forall w, id :: (w, id) in s.replies ==> IsNamed(s, w) && s.ids[w] == id)
  }

  // The worker is giving `w` its first id and has not yet said so.
  predicate IsFinishing(pc: Pc, w: Word) {
    (pc.Recorded? || pc.Named? || (pc.Replying? && !pc.loaded)) && pc.word == w
  }

  // Each word that was new in this session has been granted exactly once, as soon as its worker is
  // through with it, and no other word ever.
  ghost predicate GrantsOk(s: State) {
    && |s.workers| == SHARDS
    && s.before <= s.ids.Keys
    && (forall w :: w in s.before ==> !IsFinishing(s.workers[Shard(w)], w))
    && forall w :: s.granted[w] == Grants(s, w)
  }

  // What is filed of a word.
  function Filed(s: State, w: Word): seq<string> {
    if w in s.before then AllTGrams(w)
    else if w in s.clients && s.clients[w].next <= |AllTGrams(w)| then AllTGrams(w)[..s.clients[w].next]
    else []
  }

  ghost predicate IsFiled(s: State, w: Word, k: nat, e: nat) {
    w in s.ids && IsListed(Filed(s, w), s.ids[w], k, e)
  }

  // A client has the id of its word, and has come so far with it.
  ghost predicate ClientsOk(s: State) {
    && (forall w :: w in s.clients <==> w in s.granted)
    && forall w :: w in s.clients ==>
         w in s.ids && w !in s.before && s.clients[w].id == s.ids[w] && s.clients[w].next <= |AllTGrams(w)|
  }

  // The files hold exactly what was filed.
  ghost predicate FilesOk(s: State) {
    && |s.chunks| == CHUNKS
    && forall k: nat, e :: k < CHUNKS ==> (e in s.chunks[k] <==> exists w :: IsFiled(s, w, k, e))
  }

  ghost predicate Safe(s: State) {
    StoreOk(s) && WorkersOk(s) && AnswersOk(s) && GrantsOk(s) && ClientsOk(s) && FilesOk(s)
  }

  lemma KnownIsFiled(s: State, w: Word, k: nat, e: nat)
    requires s.before == s.ids.Keys
    ensures IsFiled(s, w, k, e) <==> w in s.ids && IsPosting(w, s.ids[w], k, e)
  {
    if w in s.ids {
      ListedIsPosting(w, s.ids[w], k, e);
    }
  }

  lemma InitialFilesOk(s: State)
    requires Initial(s)
    ensures FilesOk(s)
  {
    forall k: nat, e | k < CHUNKS
      ensures e in s.chunks[k] <==> exists w :: IsFiled(s, w, k, e)
    {
      if Posted(s.ids, k, e) {
        var w: Word :| w in s.ids && IsPosting(w, s.ids[w], k, e);
        KnownIsFiled(s, w, k, e);
      }
      if w :| IsFiled(s, w, k, e) {
        KnownIsFiled(s, w, k, e);
      }
    }
  }

  lemma InitialIsSafe(s: State)
    requires Initial(s)
    ensures Safe(s)
  {
    InitialFilesOk(s);
  }

  // The store only ever gains pairs.
  ghost predicate Grows(s: State, s': State) {
    && (forall w :: w in s.ids ==> w in s'.ids && s'.ids[w] == s.ids[w])
    && (forall n :: n in s.names ==> n in s'.names && s'.names[n] == s.names[n])
    && (forall w :: IsNamed(s, w) ==> IsNamed(s', w))
  }

  lemma StoreOnlyGrows(s: State, i: nat, act: Act, s': State)
    requires i < |s.workers| && i < |s.caches| && PcOk(s, i) && WorkerNext(s, i, act, s')
    ensures Grows(s, s')
  {
    if !act.RecordWord? && !act.RecordName? {
      assert s'.ids == s.ids && s'.names == s.names;
    }
  }

  lemma QuietKeepsStore(s: State, i: nat, act: Act, s': State)
    requires StoreOk(s) && WorkersOk(s) && Next(s, ByWorker(i, act), s') && !act.RecordWord? && !act.RecordName?
    ensures StoreOk(s')
  {
    assert PcOk(s, i);
  }

  lemma RecordKeepsStore(s: State, i: nat, act: Act, s': State)
    requires Safe(s) && Next(s, ByWorker(i, act), s') && act.RecordWord?
    ensures StoreOk(s')
  {
    assert PcOk(s, i);
    StoreOnlyGrows(s, i, act, s');
  }

  lemma NameKeepsStore(s: State, i: nat, act: Act, s': State)
    requires Safe(s) && Next(s, ByWorker(i, act), s') && act.RecordName?
    ensures StoreOk(s')
  {
    assert PcOk(s, i);
  }

  lemma OwnPcOk(s: State, i: nat, act: Act, s': State)
    requires Safe(s) && Next(s, ByWorker(i, act), s')
    ensures PcOk(s', i)
  {
    assert PcOk(s, i);
    if act.LoadStored? || act.LoadCached? {
      assert IsNamed(s, s.workers[i].word);
    }
  }

  lemma OtherPcOk(s: State, i: nat, act: Act, s': State, j: nat)
    requires |s.workers| == |s.caches| == SHARDS && i < SHARDS && PcOk(s, i) && WorkerNext(s, i, act, s')
    requires j < SHARDS && j != i && PcOk(s, j)
    requires s.workers[i].Numbered? && s.workers[j].Numbered? ==> s.workers[i].id != s.workers[j].id
    requires s.workers[i].Recorded? && s.workers[j].Recorded? ==> s.workers[i].id != s.workers[j].id
    ensures PcOk(s', j)
  {
    StoreOnlyGrows(s, i, act, s');
  }

  // Ids on their way into the store are different ones.
  lemma IdsDiffer(s: State, i: nat, j: nat)
    requires Safe(s) && i < SHARDS && j < SHARDS && i != j
    ensures s.workers[i].Numbered? && s.workers[j].Numbered? ==> s.workers[i].id != s.workers[j].id
    ensures s.workers[i].Recorded? && s.workers[j].Recorded? ==> s.workers[i].id != s.workers[j].id
  {
    assert PcOk(s, i) && PcOk(s, j);
  }

  lemma NumbersDiffer(s: State, i: nat, act: Act, s': State, j: nat)
    requires |s.workers| == |s.caches| == SHARDS && i < SHARDS && PcOk(s, i) && WorkerNext(s, i, act, s')
    requires j < SHARDS && j != i && PcOk(s, j)
    requires s.workers[i].Numbered? && s.workers[j].Numbered? ==> s.workers[i].id != s.workers[j].id
    ensures s'.workers[i].Numbered? && s'.workers[j].Numbered? ==> s'.workers[i].id != s'.workers[j].id
  {
  }

  lemma WorkerKeepsWorkers(s: State, i: nat, act: Act, s': State)
    requires Safe(s) && Next(s, ByWorker(i, act), s')
    ensures WorkersOk(s')
  {
    assert PcOk(s, i);
    OwnPcOk(s, i, act, s');
    assert |s'.workers| == SHARDS;
    forall j | 0 <= j < SHARDS && j != i
      ensures PcOk(s', j)
      ensures s'.workers[i].Numbered? && s'.workers[j].Numbered? ==> s'.workers[i].id != s'.workers[j].id
      ensures s'.workers[j] == s.workers[j]
    {
      assert PcOk(s, j);
      IdsDiffer(s, i, j);
      OtherPcOk(s, i, act, s', j);
      NumbersDiffer(s, i, act, s', j);
    }
  }

  // What was right stays right while the store grows.
  lemma GrowthKeepsAnswers(s: State, s': State)
    requires AnswersOk(s) && Grows(s, s')
    requires s'.caches == s.caches && s'.replies == s.replies
    ensures AnswersOk(s')
  {
    forall i, w | 0 <= i < |s'.caches| && w in s'.caches[i]
      ensures IsNamed(s', w) && s'.ids[w] == s'.caches[i][w]
    {
      assert w in s.caches[i] && IsNamed(s, w);
    }
  }

  lemma CacheKeepsAnswers(s: State, i: nat, cache: map<Word, nat>, pc: Pc)
    requires AnswersOk(s) && i < |s.caches| && i < |s.workers|
    requires forall w :: w in cache ==> IsNamed(s, w) && s.ids[w] == cache[w]
    ensures AnswersOk(Goes(s, i, pc).(caches := s.caches[i := cache]))
  {
    var s' := Goes(s, i, pc).(caches := s.caches[i := cache]);
    assert s'.ids == s.ids && s'.names == s.names;
    forall j, w | 0 <= j < |s'.caches| && w in s'.caches[j]
      ensures IsNamed(s', w) && s'.ids[w] == s'.caches[j][w]
    {
      assert w in if j == i then cache else s.caches[j];
      assert IsNamed(s, w);
    }
    assert forall w, id :: (w, id) in s'.replies ==> IsNamed(s, w);
  }

  lemma ReplyKeepsAnswers(s: State, i: nat, w: Word, id: nat, granted: multiset<Word>, clients: map<Word, Progress>)
    requires AnswersOk(s) && i < |s.workers| && IsNamed(s, w) && s.ids[w] == id
    ensures AnswersOk(Goes(s, i, Idle).(granted := granted, replies := s.replies + {(w, id)}, clients := clients))
  {
    var s' := Goes(s, i, Idle).(granted := granted, replies := s.replies + {(w, id)}, clients := clients);
    assert s'.ids == s.ids && s'.names == s.names;
    forall v, n | (v, n) in s'.replies
      ensures IsNamed(s', v) && s'.ids[v] == n
    {
      assert (v, n) in s.replies || v == w;
      assert IsNamed(s, v);
    }
    forall j, v | 0 <= j < |s'.caches| && v in s'.caches[j]
      ensures IsNamed(s', v) && s'.ids[v] == s'.caches[j][v]
    {
      assert v in s.caches[j];
      assert IsNamed(s, v);
    }
  }

  lemma WorkerKeepsAnswers(s: State, i: nat, act: Act, s': State)
    requires i < |s.workers| && i < |s.caches| && PcOk(s, i) && WorkerNext(s, i, act, s')
    requires AnswersOk(s)
    ensures AnswersOk(s')
  {
    var pc := s.workers[i];
    match act
    case FillCache =>
      assert forall w :: w in s.caches[i] ==> IsNamed(s, w) && s.ids[w] == s.caches[i][w];
      CacheKeepsAnswers(s, i, Remember(s.caches[i], pc.word, pc.id), Replying(pc.word, pc.id, false));
    case Evict(w) =>
      assert forall v :: v in s.caches[i] ==> IsNamed(s, v) && s.ids[v] == s.caches[i][v];
      CacheKeepsAnswers(s, i, Forget(s.caches[i], w), pc);
      assert s' == Goes(s, i, pc).(caches := s.caches[i := Forget(s.caches[i], w)]);
    case Reply =>
      ReplyKeepsAnswers(s, i, pc.word, pc.id, s'.granted, s'.clients);
    case _ =>
      StoreOnlyGrows(s, i, act, s');
      GrowthKeepsAnswers(s, s');
  }

  function Grants(s: State, w: Word): nat
    requires |s.workers| == SHARDS
  {
    if w in s.ids && w !in s.before && !IsFinishing(s.workers[Shard(w)], w) then 1 else 0
  }

  lemma OtherWordSameGrants(s: State, i: nat, act: Act, s': State, w: Word)
    requires |s.workers| == |s.caches| == SHARDS && i < SHARDS && PcOk(s, i) && WorkerNext(s, i, act, s')
    requires s.workers[i].Idle? || s.workers[i].word != w
    ensures Grants(s', w) == Grants(s, w) && s'.granted[w] == s.granted[w]
  {
  }

  lemma OwnWordGrants(s: State, i: nat, act: Act, s': State)
    requires |s.workers| == |s.caches| == SHARDS && i < SHARDS && PcOk(s, i) && WorkerNext(s, i, act, s')
    requires !s.workers[i].Idle? && !act.Reply?
    requires s.before <= s.ids.Keys
    ensures Grants(s', s.workers[i].word) == Grants(s, s.workers[i].word) && s'.granted == s.granted
  {
  }

  lemma ReplyGrants(s: State, i: nat, s': State)
    requires |s.workers| == |s.caches| == SHARDS && i < SHARDS && PcOk(s, i) && WorkerNext(s, i, Reply, s')
    requires GrantsOk(s)
    ensures Grants(s', s.workers[i].word) == s'.granted[s.workers[i].word]
  {
    assert s.granted[s.workers[i].word] == Grants(s, s.workers[i].word);
  }

  lemma WordKeepsGrants(s: State, i: nat, act: Act, s': State, w: Word)
    requires |s.workers| == |s.caches| == SHARDS && i < SHARDS && PcOk(s, i) && WorkerNext(s, i, act, s')
    requires GrantsOk(s)
    ensures s'.granted[w] == Grants(s', w)
  {
    assert s.granted[w] == Grants(s, w);
    if s.workers[i].Idle? || s.workers[i].word != w {
      OtherWordSameGrants(s, i, act, s', w);
    } else if act.Reply? {
      ReplyGrants(s, i, s');
    } else {
      OwnWordGrants(s, i, act, s');
    }
  }

  lemma KnownIsNotFinishing(s: State, i: nat, act: Act, s': State, w: Word)
    requires |s.workers| == |s.caches| == SHARDS && i < SHARDS && PcOk(s, i) && WorkerNext(s, i, act, s')
    requires w in s.before && s.before <= s.ids.Keys && !IsFinishing(s.workers[Shard(w)], w)
    ensures w in s'.before && w in s'.ids && !IsFinishing(s'.workers[Shard(w)], w)
  {
  }

  lemma WorkerKeepsGrants(s: State, i: nat, act: Act, s': State)
    requires |s.workers| == |s.caches| == SHARDS && i < SHARDS && PcOk(s, i) && WorkerNext(s, i, act, s')
    requires GrantsOk(s)
    ensures GrantsOk(s')
  {
    forall w: Word
      ensures s'.granted[w] == Grants(s', w)
    {
      WordKeepsGrants(s, i, act, s', w);
    }
    forall w | w in s.before
      ensures w in s'.ids && !IsFinishing(s'.workers[Shard(w)], w)
    {
      KnownIsNotFinishing(s, i, act, s', w);
    }
    assert s'.before == s.before && |s'.workers| == SHARDS;
  }

  // ---------- Clients and files ----------

  lemma WorkerKeepsClients(s: State, i: nat, act: Act, s': State)
    requires |s.workers| == |s.caches| == SHARDS && i < SHARDS && PcOk(s, i) && WorkerNext(s, i, act, s')
    requires GrantsOk(s) && ClientsOk(s)
    ensures ClientsOk(s')
  {
    StoreOnlyGrows(s, i, act, s');
  }

  // A worker files nothing: what it grants has nothing filed yet.
  lemma WorkerKeepsFiled(s: State, i: nat, act: Act, s': State, w: Word, k: nat, e: nat)
    requires |s.workers| == |s.caches| == SHARDS && i < SHARDS && PcOk(s, i) && WorkerNext(s, i, act, s')
    requires GrantsOk(s) && ClientsOk(s)
    ensures IsFiled(s', w, k, e) <==> IsFiled(s, w, k, e)
  {
  }

  lemma WorkerKeepsFiles(s: State, i: nat, act: Act, s': State)
    requires |s.workers| == |s.caches| == SHARDS && i < SHARDS && PcOk(s, i) && WorkerNext(s, i, act, s')
    requires GrantsOk(s) && ClientsOk(s) && FilesOk(s)
    ensures FilesOk(s')
  {
    forall w, k, e
      ensures IsFiled(s', w, k, e) <==> IsFiled(s, w, k, e)
    {
      WorkerKeepsFiled(s, i, act, s', w, k, e);
    }
    assert s'.chunks == s.chunks;
  }

  lemma PostFiles(s: State, w: Word, v: Word, k: nat, e: nat)
    requires ClientsOk(s) && |s.chunks| == CHUNKS && w in s.clients && s.clients[w].next < |AllTGrams(w)|
    ensures var ng := AllTGrams(w)[s.clients[w].next];
      && |ng| == 3 && IsWord(ng)
      && (IsFiled(AfterPost(s, w), v, k, e) <==>
          IsFiled(s, v, k, e) || (v == w && k == BiGramKey(ng) && e == Encode(s.ids[w], ng[2])))
  {
    var n := s.clients[w].next;
    TGramIsWord(w, n);
    if v == w {
      assert AllTGrams(w)[..n + 1] == AllTGrams(w)[..n] + [AllTGrams(w)[n]];
      ListedStep(AllTGrams(w)[..n], AllTGrams(w)[n], s.ids[w], k, e);
    }
  }

  lemma PostKeepsFiles(s: State, w: Word)
    requires ClientsOk(s) && FilesOk(s) && w in s.clients && s.clients[w].next < |AllTGrams(w)|
    ensures ClientsOk(AfterPost(s, w)) && FilesOk(AfterPost(s, w))
  {
    var s' := AfterPost(s, w);
    TGramIsWord(w, s.clients[w].next);
    forall k: nat, e | k < CHUNKS
      ensures e in s'.chunks[k] <==> exists v :: IsFiled(s', v, k, e)
    {
      PostFiles(s, w, w, k, e);
      if v :| IsFiled(s, v, k, e) {
        PostFiles(s, w, v, k, e);
      }
      if v :| IsFiled(s', v, k, e) {
        PostFiles(s, w, v, k, e);
      }
    }
  }

  lemma PostKeepsRest(s: State, clients: map<Word, Progress>, chunks: seq<seq<nat>>)
    requires StoreOk(s) && WorkersOk(s) && AnswersOk(s) && GrantsOk(s)
    ensures var s' := s.(chunks := chunks, clients := clients);
      StoreOk(s') && WorkersOk(s') && AnswersOk(s') && GrantsOk(s')
  {
    var s' := s.(chunks := chunks, clients := clients);
    forall i | 0 <= i < |s'.workers|
      ensures PcOk(s', i)
    {
      assert PcOk(s, i);
    }
    forall w
      ensures IsNamed(s', w) <==> IsNamed(s, w)
    {
    }
  }

  lemma StepKeepsSafe(s: State, step: Step, s': State)
    requires Safe(s) && Next(s, step, s')
    ensures Safe(s')
  {
    match step
    case ByWorker(i, act) =>
      match act {
        case RecordWord => RecordKeepsStore(s, i, act, s');
        case RecordName => NameKeepsStore(s, i, act, s');
        case _ => QuietKeepsStore(s, i, act, s');
      }
      WorkerKeepsWorkers(s, i, act, s');
      WorkerKeepsAnswers(s, i, act, s');
      WorkerKeepsGrants(s, i, act, s');
      WorkerKeepsClients(s, i, act, s');
      WorkerKeepsFiles(s, i, act, s');
    case Post(w) =>
      PostKeepsRest(s, s'.clients, s'.chunks);
      PostKeepsFiles(s, w);
  }

  // ---------- All interleavings ----------

  ghost predicate StepAt(states: seq<State>, steps: seq<Step>, k: nat)
    requires k < |steps| && |states| == |steps| + 1
  {
    Next(states[k], steps[k], states[k + 1])
  }

  ghost predicate IsExecution(states: seq<State>, steps: seq<Step>) {
    && |states| == |steps| + 1
    && Initial(states[0])
    && forall k: nat {:trigger StepAt(states, steps, k)} :: k < |steps| ==> StepAt(states, steps, k)
  }

  lemma {:induction false} ExecutionIsSafe(states: seq<State>, steps: seq<Step>, k: nat)
    requires IsExecution(states, steps) && k <= |steps|
    ensures Safe(states[k])
  {
    if k == 0 {
      InitialIsSafe(states[0]);
    } else {
      var j := k - 1;
      ExecutionIsSafe(states, steps, j);
      assert StepAt(states, steps, j);
      StepKeepsSafe(states[j], steps[j], states[j + 1]);
    }
  }

  // At every moment no word is granted twice, and cached ids are those of the store.
  lemma AnswersAreRight(states: seq<State>, steps: seq<Step>, k: nat)
    requires IsExecution(states, steps) && k <= |steps|
    ensures forall w :: states[k].granted[w] <= 1
    ensures forall i, w :: 0 <= i < |states[k].caches| && w in states[k].caches[i] ==>
      w in states[k].ids && states[k].ids[w] == states[k].caches[i][w]
  {
    ExecutionIsSafe(states, steps, k);
    var s := states[k];
    forall i, w | 0 <= i < |s.caches| && w in s.caches[i]
      ensures w in s.ids && s.ids[w] == s.caches[i][w]
    {
      assert IsNamed(s, w);
    }
  }

  // Between requests the two directions of the store are inverse to each other, and each word that
  // is new in this session has been granted once.
  lemma QuiescentStoreIsMutual(states: seq<State>, steps: seq<Step>, k: nat)
    requires IsExecution(states, steps) && k <= |steps|
    requires forall i :: 0 <= i < SHARDS && i < |states[k].workers| ==> states[k].workers[i] == Idle
    ensures var s := states[k];
      && (forall w :: w in s.ids ==> IsNamed(s, w))
      && (forall n :: n in s.names ==> s.names[n] in s.ids && s.ids[s.names[n]] == n)
      && (forall w :: s.granted[w] == if w in s.ids && w !in s.before then 1 else 0)
  {
    ExecutionIsSafe(states, steps, k);
    var s := states[k];
    forall w: Word
      ensures s.granted[w] == if w in s.ids && w !in s.before then 1 else 0
    {
      assert s.granted[w] == Grants(s, w);
    }
  }

  // ---------- Postings and lookups ----------

  lemma FiledIsNamed(s: State, w: Word, k: nat, e: nat)
    requires Safe(s) && IsFiled(s, w, k, e)
    ensures IsNamed(s, w) && IsPosting(w, s.ids[w], k, e)
  {
    assert s.granted[w] == Grants(s, w);
    assert w in s.before || w in s.clients;
    var c :| Grouped(Filed(s, w), k, c) && e == Encode(s.ids[w], c);
    var t :| t in Filed(s, w) && Belongs(t, k, c);
    assert t in AllTGrams(w);
    AllTGramsAre(w);
    assert HasGroup(w, k, c);
  }

  lemma StoreGrowsAtStep(s: State, step: Step, s': State)
    requires Safe(s) && Next(s, step, s')
    ensures Grows(s, s')
  {
    match step
    case ByWorker(i, act) =>
      assert PcOk(s, i);
      StoreOnlyGrows(s, i, act, s');
    case Post(w) =>
      assert s'.ids == s.ids && s'.names == s.names;
  }

  lemma {:induction false} StoreGrowsAt(states: seq<State>, steps: seq<Step>, k: nat)
    requires IsExecution(states, steps) && k < |steps|
    ensures Grows(states[k], states[k + 1])
  {
    ExecutionIsSafe(states, steps, k);
    assert StepAt(states, steps, k);
    StoreGrowsAtStep(states[k], steps[k], states[k + 1]);
  }

  lemma {:induction false} NameStays(states: seq<State>, steps: seq<Step>, j: nat, k: nat, w: Word)
    requires IsExecution(states, steps) && j <= k <= |steps| && IsNamed(states[j], w)
    ensures IsNamed(states[k], w) && states[k].ids[w] == states[j].ids[w]
    decreases k - j
  {
    if j < k {
      var n := k - 1;
      NameStays(states, steps, j, n, w);
      StoreGrowsAt(states, steps, n);
    }
  }

  // An entry that a lookup reads at one moment resolves at any later one, to a word that has the trigram
  // it was filed under: whatever the clients and workers do meanwhile, no lookup meets an invalid id.
  lemma {:induction false} EntriesResolve(states: seq<State>, steps: seq<Step>, j: nat, k: nat, file: nat, e: nat)
    requires IsExecution(states, steps) && j <= k <= |steps| && states[k].counter < 0x100_0000
    requires |states[j].chunks| == CHUNKS && file < CHUNKS && e in states[j].chunks[file]
    ensures var (id, last) := Decode(e);
      id in states[k].names && HasGroup(states[k].names[id], file, last)
  {
    ExecutionIsSafe(states, steps, j);
    ExecutionIsSafe(states, steps, k);
    var w :| IsFiled(states[j], w, file, e);
    FiledIsNamed(states[j], w, file, e);
    NameStays(states, steps, j, k, w);
    var c :| HasGroup(w, file, c) && e == Encode(states[j].ids[w], c);
    PackingRoundTrip(states[k].ids[w], c);
  }

  // Every request is answered, and every client that was granted a word is through with it.
  ghost predicate IsAtRest(s: State) {
    && (forall i :: 0 <= i < |s.workers| ==> s.workers[i] == Idle)
    && forall w :: w in s.clients ==> s.clients[w].next == |AllTGrams(w)|
  }

  lemma AllIsFiled(s: State, w: Word, k: nat, e: nat)
    requires Safe(s) && IsAtRest(s)
    ensures IsFiled(s, w, k, e) <==> w in s.ids && IsPosting(w, s.ids[w], k, e)
  {
    assert s.granted[w] == Grants(s, w);
    if w in s.ids {
      assert w in s.before || w in s.clients;
      assert AllTGrams(w)[..|AllTGrams(w)|] == AllTGrams(w);
      ListedIsPosting(w, s.ids[w], k, e);
    }
  }

  // Then, in whatever order all of it went, the files hold exactly the postings of the words stored.
  lemma FilesAreExactAtRest(states: seq<State>, steps: seq<Step>, k: nat)
    requires IsExecution(states, steps) && k <= |steps| && IsAtRest(states[k])
    ensures AreExact(states[k].chunks, states[k].ids)
  {
    ExecutionIsSafe(states, steps, k);
    var s := states[k];
    forall f: nat, e | f < CHUNKS
      ensures e in s.chunks[f] <==> Posted(s.ids, f, e)
    {
      if w :| IsFiled(s, w, f, e) {
        AllIsFiled(s, w, f, e);
      }
      if Posted(s.ids, f, e) {
        var w: Word :| w in s.ids && IsPosting(w, s.ids[w], f, e);
        AllIsFiled(s, w, f, e);
      }
    }
  }

  lemma StoreIsMutualAtRest(states: seq<State>, steps: seq<Step>, k: nat)
    requires IsExecution(states, steps) && k <= |steps| && IsAtRest(states[k]) && states[k].counter < 0x100_0000
    ensures AreMutual(states[k].ids, states[k].names, states[k].counter)
  {
    ExecutionIsSafe(states, steps, k);
  }

  // ... so a lookup returns exactly those that share a trigram with the query.
  method LookUpAtRest(states: seq<State>, steps: seq<Step>, word: string) returns (r: Result<seq<string>>)
    requires IsExecution(states, steps) && IsAtRest(states[|steps|]) && states[|steps|].counter < 0x100_0000
    requires IsWord(word)
    ensures r.Ok? && NoRepeats(r.value)
    ensures forall w :: w in r.value <==> w in states[|steps|].ids && Shares(w, word)
  {
    var s := states[|steps|];
    FilesAreExactAtRest(states, steps, |steps|);
    StoreIsMutualAtRest(states, steps, |steps|);
    var index := new NGramIndex.Open(s.chunks, s.ids, s.names, s.counter);
    r := index.GetWordsByTGrams(word);
  }
}
