/** The per-subnet sequence store of lstm_model.py and its two ways of scoring, as one thread runs
    them, with the scorer of scorer.py on top. */
module SequenceStore {
  import opened Sequences
  import Scoring
  import Subnets

  const MAX_SEQ_LEN: nat := 20
  const FEATURE_DIM: nat := 9
  const KEY_PREFIX: string := "seq:"

  type Vec = seq<real>

  /** A dictionary entry that may be missing. */
  datatype Field<T> = Absent | Present(value: T)
  {
    function Get(default: T): T {
      if Present? then value else default
    }
  }

  /** The fields of a feature-vector dictionary that scoring reads. */
  datatype FeatureVector = FeatureVector(
    reqRate1s: Field<real>, reqRate10s: Field<real>, reqRate60s: Field<real>,
    contentLength: Field<real>, headerCount: Field<real>, isHttp2: Field<real>,
    httpMethod: Field<string>, ja3Hash: Field<string>, userAgentHash: Field<string>)

  function FvToArray(fv: FeatureVector): (v: Vec)
    ensures |v| == FEATURE_DIM
  {
    [fv.reqRate1s.Get(0.0), fv.reqRate10s.Get(0.0), fv.reqRate60s.Get(0.0),
     fv.contentLength.Get(0.0), fv.headerCount.Get(0.0), fv.isHttp2.Get(0.0),
     |fv.httpMethod.Get("")| as real, |fv.ja3Hash.Get("")| as real, |fv.userAgentHash.Get("")| as real]
  }

  /** The order of the features that both models are trained on. */
  datatype Feature =
    | ReqRate1s | ReqRate10s | ReqRate60s | ContentLength | HeaderCount | IsHttp2
    | HttpMethodLength | Ja3HashLength | UserAgentHashLength

  const FEATURES: seq<Feature> := [
    ReqRate1s, ReqRate10s, ReqRate60s, ContentLength, HeaderCount, IsHttp2,
    HttpMethodLength, Ja3HashLength, UserAgentHashLength]

  /** A missing number counts as zero, and a missing string as empty. */
  function NumberIn(field: Field<real>): real {
    match field
    case Absent => 0.0
    case Present(value) => value
  }

  function LengthIn(field: Field<string>): real {
    match field
    case Absent => 0.0
    case Present(value) => |value| as real
  }

  function ValueOf(fv: FeatureVector, feature: Feature): real {
    match feature
    case ReqRate1s => NumberIn(fv.reqRate1s)
    case ReqRate10s => NumberIn(fv.reqRate10s)
    case ReqRate60s => NumberIn(fv.reqRate60s)
    case ContentLength => NumberIn(fv.contentLength)
    case HeaderCount => NumberIn(fv.headerCount)
    case IsHttp2 => NumberIn(fv.isHttp2)
    case HttpMethodLength => LengthIn(fv.httpMethod)
    case Ja3HashLength => LengthIn(fv.ja3Hash)
    case UserAgentHashLength => LengthIn(fv.userAgentHash)
  }

  /** The encoding of the isolation forest. */
  function EncodeFeatureVector(fv: FeatureVector): Vec {
    seq(|FEATURES|, i requires 0 <= i < |FEATURES| => ValueOf(fv, FEATURES[i]))
  }

  /** The two models encode a feature vector alike, feature by feature. */
  lemma EncodersAgree(fv: FeatureVector)
    ensures FvToArray(fv) == EncodeFeatureVector(fv)
  {
    assert FvToArray(fv)[..6] == EncodeFeatureVector(fv)[..6];
    assert FvToArray(fv)[6..] == EncodeFeatureVector(fv)[6..];
  }

  function Encoded(fvs: seq<FeatureVector>): (vs: seq<Vec>)
    ensures |vs| == |fvs| && forall i :: 0 <= i < |fvs| ==> vs[i] == FvToArray(fvs[i])
  {
    seq(|fvs|, i requires 0 <= i < |fvs| => FvToArray(fvs[i]))
  }

  function KeyFor(ip: string): string {
    KEY_PREFIX + Subnets.IpToSubnet(ip)
  }

  predicate SameSubnet(ip1: string, ip2: string) {
    Subnets.IpToSubnet(ip1) == Subnets.IpToSubnet(ip2)
  }

  /** Two addresses share a sequence exactly when they are in one subnet. */
  lemma KeysAreSubnets(ip1: string, ip2: string)
    ensures KeyFor(ip1) == KeyFor(ip2) <==> SameSubnet(ip1, ip2)
  {
    var subnet1, subnet2 := Subnets.IpToSubnet(ip1), Subnets.IpToSubnet(ip2);
    if KeyFor(ip1) == KeyFor(ip2) {
      assert KeyFor(ip1)[|KEY_PREFIX|..] == subnet1 && KeyFor(ip2)[|KEY_PREFIX|..] == subnet2;
    }
  }

  // ----- the model input --------------------------------------------------------------------

  type Tensor = seq<seq<real>>

  /** One cell of the zero-padded input: rows beyond the window and columns beyond a row are zero. */
  function Cell(rows: seq<Vec>, i: nat, j: nat): real {
    var usable := LastN(rows, MAX_SEQ_LEN);
    if i < |usable| && j < |usable[i]| then usable[i][j] else 0.0
  }

  function InputOf(rows: seq<Vec>): Tensor {
    seq(MAX_SEQ_LEN, i requires 0 <= i => seq(FEATURE_DIM, j requires 0 <= j => Cell(rows, i, j)))
  }

  function Least(m: nat, n: nat): nat {
    if m < n then m else n
  }

  /** The value in row i and column j of the input for these rows: the rows fill it from the top, oldest
      first, and if there are more than MAX_SEQ_LEN of them only the newest are taken. */
  function Padded(rows: seq<Vec>, i: nat, j: nat): real {
    var n := Least(|rows|, MAX_SEQ_LEN);
    if i < n && j < |rows[|rows| - n + i]| then rows[|rows| - n + i][j] else 0.0
  }

  predicate IsPadded(rows: seq<Vec>, t: Tensor) {
    && |t| == MAX_SEQ_LEN
    && (forall i :: 0 <= i < MAX_SEQ_LEN ==> |t[i]| == FEATURE_DIM)
    && (forall i, j :: 0 <= i < MAX_SEQ_LEN && 0 <= j < FEATURE_DIM ==> t[i][j] == Padded(rows, i, j))
  }

  lemma CellIsPadded(rows: seq<Vec>, i: nat, j: nat)
    ensures Cell(rows, i, j) == Padded(rows, i, j)
  {
    LastNIsTheEnd(rows, MAX_SEQ_LEN, LastN(rows, MAX_SEQ_LEN));
  }

  /** There is exactly one input for given rows. */
  lemma InputIsPadded(rows: seq<Vec>, t: Tensor)
    ensures IsPadded(rows, t) <==> t == InputOf(rows)
  {
    forall i: nat, j: nat ensures Cell(rows, i, j) == Padded(rows, i, j) {
      CellIsPadded(rows, i, j);
    }
    if IsPadded(rows, t) {
      forall i | 0 <= i < MAX_SEQ_LEN ensures t[i] == InputOf(rows)[i] {}
    }
  }

  function Contents(a: array2<real>): Tensor
    reads a
  {
    seq(a.Length0, i requires 0 <= i < a.Length0 reads a =>
      seq(a.Length1, j requires 0 <= j < a.Length1 reads a => a[i, j]))
  }

  method PrepareInput(rows: seq<Vec>) returns (padded: array2<real>)
    ensures fresh(padded) && padded.Length0 == 20 && padded.Length1 == 9
    ensures forall i, j :: 0 <= i < 20 && 0 <= j < 9 ==>
              var n := if |rows| < 20 then |rows| else 20;
              padded[i, j] == if i < n && j < |rows[|rows| - n + i]| then rows[|rows| - n + i][j] else 0.0
    ensures Contents(padded) == InputOf(rows)
  {
    padded := new real[MAX_SEQ_LEN, FEATURE_DIM]((i, j) => 0.0);
    var usable := LastN(rows, MAX_SEQ_LEN);
    var i := 0;
    while i < |usable|
      invariant 0 <= i <= |usable|
      invariant forall p, q :: 0 <= p < i && 0 <= q < FEATURE_DIM ==> padded[p, q] == Cell(rows, p, q)
      invariant forall p, q :: i <= p < MAX_SEQ_LEN && 0 <= q < FEATURE_DIM ==> padded[p, q] == 0.0
    {
      var row := usable[i];
      forall j | 0 <= j < FEATURE_DIM && j < |row| {
        padded[i, j] := row[j];
      }
      i := i + 1;
    }
    forall p | 0 <= p < MAX_SEQ_LEN ensures Contents(padded)[p] == InputOf(rows)[p] {
      assert forall q :: 0 <= q < FEATURE_DIM ==> padded[p, q] == Cell(rows, p, q);
    }
    forall p, q | 0 <= p < MAX_SEQ_LEN && 0 <= q < FEATURE_DIM ensures padded[p, q] == Padded(rows, p, q) {
      CellIsPadded(rows, p, q);
    }
  }

  /** The loaded model, if any: the raw output of inference on an input. */
  datatype Session = NoSession | Session(infer: Tensor -> Scoring.Raw)

  function ScoreRows(session: Session, rows: seq<Vec>): real {
    match session
    case NoSession => Scoring.NEUTRAL
    case Session(infer) => Scoring.LstmScore(infer(InputOf(rows)))
  }

  // ----- the store ---------------------------------------------------------------------------

  type Store = map<string, seq<Vec>>

  function StoredAt(st: Store, key: string): seq<Vec> {
    if key in st then st[key] else []
  }

  function Pushed(st: Store, ip: string, fv: FeatureVector): Store {
    var key := KeyFor(ip);
    st[key := LastN(StoredAt(st, key) + [FvToArray(fv)], MAX_SEQ_LEN)]
  }

  function Expired(st: Store, key: string): Store {
    st - {key}
  }

  function StoreScore(session: Session, st: Store, ip: string): real {
    var rows := StoredAt(st, KeyFor(ip));
    if rows == [] then Scoring.NEUTRAL else ScoreRows(session, rows)
  }

  /** The score of some rows is the model's output on their input, if there is a model. */
  lemma RowsCases(session: Session, rows: seq<Vec>)
    ensures if session.NoSession? then ScoreRows(session, rows) == 0.5
            else forall t :: IsPadded(rows, t) ==> ScoreRows(session, rows) == Scoring.LstmScore(session.infer(t))
  {
    forall t | IsPadded(rows, t) ensures t == InputOf(rows) {
      InputIsPadded(rows, t);
    }
  }

  /** The score of an address is that of its subnet's rows; without rows it is neutral. */
  lemma ScoreCases(session: Session, st: Store, ip: string)
    ensures var rows := StoredAt(st, KEY_PREFIX + Subnets.IpToSubnet(ip));
            if session.NoSession? || rows == [] then StoreScore(session, st, ip) == 0.5
            else forall t :: IsPadded(rows, t) ==> StoreScore(session, st, ip) == Scoring.LstmScore(session.infer(t))
  {
    RowsCases(session, StoredAt(st, KEY_PREFIX + Subnets.IpToSubnet(ip)));
  }

  class LSTMModel {
    const session: Session
    var redis: map<string, seq<Vec>>

    constructor (session: Session)
      ensures this.session == session && redis == map[]
    {
      this.session := session;
      redis := map[];
    }

    method PushFeatureVector(ip: string, fv: FeatureVector)
      modifies this
      ensures var key := KEY_PREFIX + Subnets.IpToSubnet(ip);
              StoredAt(redis, key) == LastN(StoredAt(old(redis), key) + [FvToArray(fv)], MAX_SEQ_LEN)
      ensures forall other :: !SameSubnet(other, ip) ==>
                StoredAt(redis, KeyFor(other)) == StoredAt(old(redis), KeyFor(other))
      ensures redis == Pushed(old(redis), ip, fv)
    {
      forall other | !SameSubnet(other, ip) ensures KeyFor(other) != KeyFor(ip) {
        KeysAreSubnets(other, ip);
      }
      var key := KEY_PREFIX + Subnets.IpToSubnet(ip);
      var sequence := if key in redis then redis[key] else [];
      sequence := sequence + [FvToArray(fv)];
      sequence := LastN(sequence, MAX_SEQ_LEN);
      redis := redis[key := sequence];
    }

    /** The key's time to live runs out. */
    method Expire(key: string)
      modifies this
      ensures redis == Expired(old(redis), key)
    {
      redis := redis - {key};
    }

    method Score(ip: string) returns (score: real)
      ensures var rows := StoredAt(redis, KEY_PREFIX + Subnets.IpToSubnet(ip));
              if session.NoSession? || rows == [] then score == 0.5
              else forall t :: IsPadded(rows, t) ==> score == Scoring.LstmScore(session.infer(t))
      ensures score == StoreScore(session, redis, ip)
      ensures 0.0 <= score <= 1.0
    {
      ScoreCases(session, redis, ip);
      if session.NoSession? {
        return Scoring.NEUTRAL;
      }
      var key := KEY_PREFIX + Subnets.IpToSubnet(ip);
      if key !in redis || redis[key] == [] {
        return Scoring.NEUTRAL;
      }
      var arr := PrepareInput(redis[key]);
      return Scoring.LstmScore(session.infer(Contents(arr)));
    }

    method ScoreSequence(fvs: seq<FeatureVector>) returns (score: real)
      ensures if session.NoSession? then score == 0.5
              else forall t :: IsPadded(Encoded(fvs), t) ==> score == Scoring.LstmScore(session.infer(t))
      ensures score == ScoreRows(session, Encoded(fvs))
      ensures 0.0 <= score <= 1.0
    {
      RowsCases(session, Encoded(fvs));
      if session.NoSession? {
        return Scoring.NEUTRAL;
      }
      var arr := PrepareInput(Encoded(fvs));
      return Scoring.LstmScore(session.infer(Contents(arr)));
    }
  }

  /** Scorer.score: push first, then score, so the request being scored is in its own input. */
  class Scorer {
    const lstm: LSTMModel

    constructor (lstm: LSTMModel)
      ensures this.lstm == lstm
    {
      this.lstm := lstm;
    }

    method Score(ip: string, fv: FeatureVector, iso: Scoring.Raw) returns (final: real)
      modifies lstm
      ensures lstm.redis == Pushed(old(lstm.redis), ip, fv)
      ensures final == 0.6 * Scoring.IsolationScore(iso) + 0.4 * StoreScore(lstm.session, lstm.redis, ip)
      ensures 0.0 <= final <= 1.0
    {
      lstm.PushFeatureVector(ip, fv);
      var isoScore := Scoring.IsolationScore(iso);
      var lstmScore := lstm.Score(ip);
      final := Scoring.Combined(isoScore, lstmScore);
    }
  }

  // ----- incremental scoring equals batch scoring ------------------------------------------------

  /** What happens to the store: a vector is pushed, or the time to live of an address's key runs out. */
  datatype Op = Push(ip: string, fv: FeatureVector) | Expire(ip: string)

  function After(ops: seq<Op>): Store {
    if ops == [] then map[]
    else
      var before := After(ops[..|ops| - 1]);
      match ops[|ops| - 1]
      case Push(ip, fv) => Pushed(before, ip, fv)
      case Expire(ip) => Expired(before, KeyFor(ip))
  }

  /** The vectors pushed by addresses of this one's subnet, in order, since the last expiry there. */
  function OfSubnet(ops: seq<Op>, ip: string): seq<FeatureVector> {
    if ops == [] then []
    else
      var before, op := OfSubnet(ops[..|ops| - 1], ip), ops[|ops| - 1];
      if !SameSubnet(op.ip, ip) then before
      else if op.Expire? then []
      else before + [op.fv]
  }

  lemma EncodedAppend(fvs: seq<FeatureVector>, fv: FeatureVector)
    ensures Encoded(fvs + [fv]) == Encoded(fvs) + [FvToArray(fv)]
    ensures Encoded([]) == []
  {
  }

  /** After any pushes, of any addresses in any order, and any expiries in between, every subnet
      holds exactly the last MAX_SEQ_LEN of its own vectors since it last expired, in push order, and
      nothing else. */
  lemma {:induction false} StoreHoldsLastOfEachSubnet(ops: seq<Op>, ip: string)
    ensures StoredAt(After(ops), KeyFor(ip)) == LastN(Encoded(OfSubnet(ops, ip)), MAX_SEQ_LEN)
  {
    if ops != [] {
      var before, op := ops[..|ops| - 1], ops[|ops| - 1];
      StoreHoldsLastOfEachSubnet(before, ip);
      KeysAreSubnets(op.ip, ip);
      if SameSubnet(op.ip, ip) && op.Push? {
        EncodedAppend(OfSubnet(before, ip), op.fv);
        TrimmedAppend(Encoded(OfSubnet(before, ip)), FvToArray(op.fv), MAX_SEQ_LEN);
      }
    }
  }

  /** Trimming twice is trimming once, so the model's input does not show that the store trims. */
  lemma TrimIsUnobservable(rows: seq<Vec>)
    ensures InputOf(LastN(rows, MAX_SEQ_LEN)) == InputOf(rows)
  {
    assert LastN(LastN(rows, MAX_SEQ_LEN), MAX_SEQ_LEN) == LastN(rows, MAX_SEQ_LEN);
    forall i | 0 <= i < MAX_SEQ_LEN ensures InputOf(LastN(rows, MAX_SEQ_LEN))[i] == InputOf(rows)[i] {
      assert forall j: nat :: Cell(LastN(rows, MAX_SEQ_LEN), i, j) == Cell(rows, i, j);
    }
  }

  /** Scoring an address after the vectors of its subnet were pushed one at a time builds the input that
      score_sequence builds from the whole list since the last expiry, row i from its i-th vector or,
      if there are more than MAX_SEQ_LEN, from the i-th of the last; whatever happened to other subnets. */
  lemma {:induction false} IncrementalBuildsBatchInput(ops: seq<Op>, ip: string)
    ensures InputOf(StoredAt(After(ops), KeyFor(ip))) == InputOf(Encoded(OfSubnet(ops, ip)))
    ensures IsPadded(Encoded(OfSubnet(ops, ip)), InputOf(StoredAt(After(ops), KeyFor(ip))))
  {
    StoreHoldsLastOfEachSubnet(ops, ip);
    TrimIsUnobservable(Encoded(OfSubnet(ops, ip)));
    InputIsPadded(Encoded(OfSubnet(ops, ip)), InputOf(Encoded(OfSubnet(ops, ip))));
  }

  /** Hence both give the same score, except that on an empty list `score` answers neutral without
      asking the model while score_sequence runs it on an all-zero input. */
  lemma {:induction false} IncrementalEqualsBatch(session: Session, ops: seq<Op>, ip: string)
    ensures var fvs := OfSubnet(ops, ip);
            StoreScore(session, After(ops), ip) == ScoreRows(session, Encoded(fvs))
            <==> fvs != [] || session.NoSession? || ScoreRows(session, []) == Scoring.NEUTRAL
  {
    var fvs := OfSubnet(ops, ip);
    StoreHoldsLastOfEachSubnet(ops, ip);
    IncrementalBuildsBatchInput(ops, ip);
    if fvs == [] {
      assert Encoded(fvs) == [];
    }
  }
}
