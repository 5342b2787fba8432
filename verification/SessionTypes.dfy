/** Bluetooth audio session types: the observer cookies of each and the kind of configuration it carries. */
module SessionTypes {

  datatype SessionType =
    | Unknown
    | A2dpSoftwareEncoding
    | A2dpHardwareOffloadEncoding
    | HearingAidSoftwareEncoding
    | LeAudioSoftwareEncoding
    | LeAudioSoftwareDecoding
    | LeAudioHardwareOffloadEncoding
    | LeAudioHardwareOffloadDecoding
    | LeAudioBroadcastSoftwareEncoding
    | LeAudioBroadcastHardwareOffloadEncoding
    | A2dpSoftwareDecoding
    | A2dpHardwareOffloadDecoding

  /** The tag of an AudioConfiguration. */
  datatype Tag = Pcm | A2dp | LeAudio | LeAudioBroadcast

  datatype AudioConfiguration = AudioConfiguration(tag: Tag, payload: int)

  predicate IsSoftware(t: SessionType) {
    t in {A2dpSoftwareEncoding, HearingAidSoftwareEncoding, LeAudioSoftwareEncoding, LeAudioSoftwareDecoding,
          LeAudioBroadcastSoftwareEncoding, A2dpSoftwareDecoding}
  }

  predicate IsOffload(t: SessionType) {
    t != Unknown && !IsSoftware(t)
  }

  predicate IsLeOffload(t: SessionType) {
    t == LeAudioHardwareOffloadEncoding || t == LeAudioHardwareOffloadDecoding
  }

  /** The types whose sessions can have a configuration at all. */
  predicate Startable(t: SessionType) {
    t != Unknown && t != LeAudioBroadcastHardwareOffloadEncoding
  }

  /** The one kind of configuration a session of a type ever shows. */
  function Kind(t: SessionType): Tag {
    match t
    case A2dpHardwareOffloadEncoding => A2dp
    case A2dpHardwareOffloadDecoding => A2dp
    case LeAudioHardwareOffloadEncoding => LeAudio
    case LeAudioHardwareOffloadDecoding => LeAudio
    case LeAudioBroadcastHardwareOffloadEncoding => LeAudioBroadcast
    case _ => Pcm
  }

  // ------------------------------------------------------------------------
  // Cookies
  // ------------------------------------------------------------------------

  const COOKIE_SIZE: int := 0x10
  const COOKIE_UNDEFINED: int := CookieInit(Unknown)

  /** The enumeration's value: distinct, and small enough that shifting it by a byte fits 16 bits. */
  function Code(t: SessionType): (n: int)
    ensures 0 <= n < 0x100
  {
    match t
    case Unknown => 0
    case A2dpSoftwareEncoding => 1
    case A2dpHardwareOffloadEncoding => 2
    case HearingAidSoftwareEncoding => 3
    case LeAudioSoftwareEncoding => 4
    case LeAudioSoftwareDecoding => 5
    case LeAudioHardwareOffloadEncoding => 6
    case LeAudioHardwareOffloadDecoding => 7
    case LeAudioBroadcastSoftwareEncoding => 8
    case LeAudioBroadcastHardwareOffloadEncoding => 9
    case A2dpSoftwareDecoding => 10
    case A2dpHardwareOffloadDecoding => 11
  }

  /** A 16-bit value: the code in the high byte, zero below. No bit is lost. */
  function CookieInit(t: SessionType): (c: int)
    ensures c == Code(t) * 0x100
  {
    Code(t) * 0x100 % 0x10000
  }

  function CookieUpper(t: SessionType): (c: int)
    ensures c == CookieInit(t) + COOKIE_SIZE
  {
    (CookieInit(t) + COOKIE_SIZE) % 0x10000
  }

  function CookieCode(cookie: int): int {
    cookie / 0x100 % 0x100
  }

  predicate CookieOf(t: SessionType, cookie: int) {
    CookieInit(t) <= cookie < CookieUpper(t)
  }

  /** Dividing by a byte's size undoes the shift. */
  lemma {:induction false} ShiftBack(n: int, low: int)
    requires 0 <= n < 0x100 && 0 <= low < 0x10
    ensures (n * 0x100 + low) / 0x100 % 0x100 == n
  {
  }

  /** The lowest free cookie of a range, or its upper bound. */
  function FirstFree(live: set<int>, from: int, upper: int): (c: int)
    requires from <= upper
    ensures from <= c <= upper
    ensures c < upper ==> c !in live
    ensures forall k :: from <= k < c ==> k in live
    decreases upper - from
  {
    if from < upper && from in live then FirstFree(live, from + 1, upper) else from
  }

  /** Registration: the live cookies afterwards, and the cookie handed out. */
  function Registered(live: set<int>, t: SessionType): (set<int>, int) {
    var c := FirstFree(live, CookieInit(t), CookieUpper(t));
    if c >= CookieUpper(t) then (live, COOKIE_UNDEFINED) else (live + {c}, c)
  }

  /** A cookie decodes to the type it was made for, so ranges of different types never meet. */
  lemma {:induction false} CookieDecodes(t: SessionType, cookie: int)
    requires CookieOf(t, cookie)
    ensures 0 <= cookie < 0x10000 && CookieCode(cookie) == Code(t)
    ensures forall u :: CookieOf(u, cookie) ==> u == t
    ensures t != Unknown ==> cookie != COOKIE_UNDEFINED
  {
    CodeOfCookie(t, cookie);
    forall u | CookieOf(u, cookie)
      ensures u == t
    {
      CodeOfCookie(u, cookie);
      CodesDiffer(t, u);
    }
    if cookie == COOKIE_UNDEFINED {
      CodeOfCookie(Unknown, cookie);
      CodesDiffer(t, Unknown);
    }
  }

  lemma {:induction false} CodeOfCookie(t: SessionType, cookie: int)
    requires CookieOf(t, cookie)
    ensures 0 <= cookie < 0x10000 && CookieCode(cookie) == Code(t)
  {
    ShiftBack(Code(t), cookie - CookieInit(t));
  }

  lemma {:induction false} CodesDiffer(t: SessionType, u: SessionType)
    requires Code(t) == Code(u)
    ensures t == u
  {
    match t {
      case Unknown =>
      case A2dpSoftwareEncoding =>
      case A2dpHardwareOffloadEncoding =>
      case HearingAidSoftwareEncoding =>
      case LeAudioSoftwareEncoding =>
      case LeAudioSoftwareDecoding =>
      case LeAudioHardwareOffloadEncoding =>
      case LeAudioHardwareOffloadDecoding =>
      case LeAudioBroadcastSoftwareEncoding =>
      case LeAudioBroadcastHardwareOffloadEncoding =>
      case A2dpSoftwareDecoding =>
      case A2dpHardwareOffloadDecoding =>
    }
  }

  function Range(lo: int, n: nat): (s: set<int>)
    ensures |s| == n && forall k :: k in s <==> lo <= k < lo + n
  {
    if n == 0 then {} else Range(lo, n - 1) + {lo + n - 1}
  }

  lemma {:induction false} SubsetSize(a: set<int>, b: set<int>)
    requires a <= b
    ensures |a| <= |b| && (|a| == |b| ==> a == b)
  {
    assert b == a + (b - a);
  }

  lemma {:induction false} RangeFull(live: set<int>, lo: int, n: nat)
    requires forall c :: c in live ==> lo <= c < lo + n
    ensures |live| <= n
    ensures FirstFree(live, lo, lo + n) == lo + n <==> |live| == n
  {
    var range := Range(lo, n);
    SubsetSize(live, range);
    var c := FirstFree(live, lo, lo + n);
    if c == lo + n {
      assert live == range;
    } else {
      assert c in range && c !in live;
    }
  }

  /** Registration fails exactly when sixteen observers are live. */
  lemma {:induction false} FailsIffFull(live: set<int>, t: SessionType)
    requires forall c :: c in live ==> CookieOf(t, c)
    ensures |live| <= COOKIE_SIZE
    ensures FirstFree(live, CookieInit(t), CookieUpper(t)) == CookieUpper(t) <==> |live| == COOKIE_SIZE
  {
    RangeFull(live, CookieInit(t), 0x10);
  }

  // ------------------------------------------------------------------------
  // Runs of registrations on all sessions
  // ------------------------------------------------------------------------

  datatype Op = Register(t: SessionType) | Unregister(t: SessionType, cookie: int)

  /** The live cookies of every session. */
  type Live = map<SessionType, set<int>>

  function LiveOf(live: Live, t: SessionType): set<int> {
    if t in live then live[t] else {}
  }

  function Step(live: Live, op: Op): Live {
    match op
    case Register(t) => live[t := Registered(LiveOf(live, t), t).0]
    case Unregister(t, cookie) => live[t := LiveOf(live, t) - {cookie}]
  }

  function Run(ops: seq<Op>): Live {
    if ops == [] then map[] else Step(Run(ops[..|ops| - 1]), ops[|ops| - 1])
  }

  predicate InRange(live: Live) {
    forall t, c :: c in LiveOf(live, t) ==> CookieOf(t, c)
  }

  lemma {:induction false} RunInRange(ops: seq<Op>)
    ensures InRange(Run(ops))
  {
    if ops != [] {
      RunInRange(ops[..|ops| - 1]);
      var live, op := Run(ops[..|ops| - 1]), ops[|ops| - 1];
      forall t, c | c in LiveOf(Step(live, op), t)
        ensures CookieOf(t, c)
      {
        assert c in LiveOf(live, t) ==> CookieOf(t, c);
      }
    }
  }

  /** Over any run on all sessions: a live cookie belongs to one session only and decodes to its type,
      it is never the undefined value for a known type, and the next registration of a type gives a
      cookie that is live nowhere, or fails exactly when sixteen observers of the type are live. */
  lemma {:induction false} CookiesUnique(ops: seq<Op>)
    ensures var live := Run(ops);
      && (forall t, c :: c in LiveOf(live, t) ==> CookieCode(c) == Code(t) && (t != Unknown ==> c != COOKIE_UNDEFINED))
      && (forall t, u, c :: c in LiveOf(live, t) && c in LiveOf(live, u) ==> t == u)
      && (forall t :: t != Unknown ==>
           (Registered(LiveOf(live, t), t).1 == COOKIE_UNDEFINED <==> |LiveOf(live, t)| == COOKIE_SIZE))
      && (forall t, u :: t != Unknown && |LiveOf(live, t)| < COOKIE_SIZE ==>
           Registered(LiveOf(live, t), t).1 !in LiveOf(live, u))
  {
    RunInRange(ops);
    var live := Run(ops);
    forall t, c | c in LiveOf(live, t)
      ensures CookieCode(c) == Code(t) && (t != Unknown ==> c != COOKIE_UNDEFINED)
    {
      CookieDecodes(t, c);
    }
    forall t, u, c | c in LiveOf(live, t) && c in LiveOf(live, u)
      ensures t == u
    {
      CookieDecodes(t, c);
    }
    forall t | t != Unknown
      ensures Registered(LiveOf(live, t), t).1 == COOKIE_UNDEFINED <==> |LiveOf(live, t)| == COOKIE_SIZE
      ensures forall u :: |LiveOf(live, t)| < COOKIE_SIZE ==> Registered(LiveOf(live, t), t).1 !in LiveOf(live, u)
    {
      NewCookieIsNew(live, t);
    }
  }

  lemma {:induction false} OneMoreOp(ops: seq<Op>, op: Op)
    ensures Run(ops + [op]) == Step(Run(ops), op)
  {
    assert (ops + [op])[..|ops|] == ops;
  }

  /** A registration adds the cookie it hands out to its own type; unregistering that cookie takes just it
      back, so the place can be taken again. */
  lemma {:induction false} RegisterThenUnregister(ops: seq<Op>, t: SessionType, u: SessionType)
    requires t != Unknown && |LiveOf(Run(ops), t)| < COOKIE_SIZE
    ensures var c := Registered(LiveOf(Run(ops), t), t).1;
      && c !in LiveOf(Run(ops), t)
      && LiveOf(Run(ops + [Register(t)]), u) == LiveOf(Run(ops), u) + (if u == t then {c} else {})
      && LiveOf(Run(ops + [Register(t)] + [Unregister(t, c)]), u) == LiveOf(Run(ops), u)
  {
    RunInRange(ops);
    var live := Run(ops);
    var c := Registered(LiveOf(live, t), t).1;
    OneMoreOp(ops, Register(t));
    OneMoreOp(ops + [Register(t)], Unregister(t, c));
    StepsBack(live, t, u);
  }

  lemma {:induction false} StepsBack(live: Live, t: SessionType, u: SessionType)
    requires InRange(live) && t != Unknown && |LiveOf(live, t)| < COOKIE_SIZE
    ensures var c := Registered(LiveOf(live, t), t).1;
      && c !in LiveOf(live, t)
      && LiveOf(Step(live, Register(t)), u) == LiveOf(live, u) + (if u == t then {c} else {})
      && LiveOf(Step(Step(live, Register(t)), Unregister(t, c)), u) == LiveOf(live, u)
  {
    NewCookieIsNew(live, t);
    var c := Registered(LiveOf(live, t), t).1;
    assert c !in LiveOf(live, t);
    assert LiveOf(live, t) + {c} - {c} == LiveOf(live, t);
    assert LiveOf(live, u) + {} == LiveOf(live, u);
  }

  lemma {:induction false} NewCookieIsNew(live: Live, t: SessionType)
    requires InRange(live) && t != Unknown
    ensures Registered(LiveOf(live, t), t).1 == COOKIE_UNDEFINED <==> |LiveOf(live, t)| == COOKIE_SIZE
    ensures forall u :: |LiveOf(live, t)| < COOKIE_SIZE ==> Registered(LiveOf(live, t), t).1 !in LiveOf(live, u)
  {
    FailsIffFull(LiveOf(live, t), t);
    var c := FirstFree(LiveOf(live, t), CookieInit(t), CookieUpper(t));
    if c < CookieUpper(t) {
      CookieDecodes(t, c);
      forall u
        ensures c !in LiveOf(live, u)
      {
        assert c in LiveOf(live, u) ==> CookieOf(u, c);
      }
    }
  }
}
