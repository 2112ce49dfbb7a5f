/** The error taxonomy of errors.go: a Go error chain as a datatype, the
    classifier `ClassifyError` (a first-match-wins chain of case-insensitive
    keyword tests) and the queries built on it. */
module Errors {
  import opened Wrappers
  import opened Text

  /** ErrorType (errors.go:12-29). */
  datatype ErrorType =
    | Network
    | Timeout
    | Auth
    | NotFound
    | FileSystem
    | InvalidInput
    | InsufficientSpace
    | Unknown

  /** The string value of each ErrorType constant. */
  function TypeName(t: ErrorType): string {
    match t
    case Network => "network"
    case Timeout => "timeout"
    case Auth => "auth"
    case NotFound => "not_found"
    case FileSystem => "filesystem"
    case InvalidInput => "invalid_input"
    case InsufficientSpace => "insufficient_space"
    case Unknown => "unknown"
  }

  /** A Go error value, as far as this library inspects it: its message,
      what it wraps, and whether it is one of the library's own types. */
  datatype Error =
    | Opaque(text: string)                          // any foreign error: only its text is seen
    | Validation(field: string, message: string)    // *ValidationError (validation.go)
    | Wrapped(prefix: string, inner: Error)         // fmt.Errorf("<prefix>%w", inner)
    | Classified(c: ClassifiedError)                // *ClassifiedError

  /** ClassifiedError (errors.go:32-37). */
  datatype ClassifiedError = ClassifiedError(kind: ErrorType, err: Error, retryable: bool, temporary: bool)

  /** err.Error(): the rendered message of every error in the chain. */
  function Message(e: Error): string {
    match e
    case Opaque(t) => t
    case Validation(f, m) => f + ": " + m
    case Wrapped(p, inner) => p + Message(inner)
    case Classified(c) => "[" + TypeName(c.kind) + "] " + Message(c.err)
  }

  /** errors.Unwrap: the next error in the chain. */
  function Unwrap(e: Error): (r: Option<Error>)
    ensures r.Some? ==> r.value < e
  {
    match e
    case Wrapped(_, inner) => Some(inner)
    case Classified(c) => Some(c.err)
    case _ => None
  }

  /** `x` is reached from `e` by zero or more calls of Unwrap: the chain
      errors.As and errors.Is walk. */
  ghost predicate InChain(e: Error, x: Error)
    decreases e
  {
    x == e || (Unwrap(e).Some? && InChain(Unwrap(e).value, x))
  }

  /** Unwrapping only goes deeper into the value. */
  lemma {:induction false} ChainBelow(e: Error, x: Error)
    requires InChain(e, x)
    ensures x == e || x < e
    decreases e
  {
    if x != e {
      ChainBelow(Unwrap(e).value, x);
    }
  }

  /** Every error in the chain renders as a tail of the outermost message:
      wrapping only ever adds text in front, so the keyword tests on the
      outer message see the text of every error it wraps. */
  lemma {:induction false} ChainMessages(e: Error, x: Error)
    requires InChain(e, x)
    ensures HasSuffix(Message(e), Message(x))
    decreases e
  {
    if x != e {
      var inner := Unwrap(e).value;
      ChainMessages(inner, x);
      OuterMessage(e);
      SuffixOfSuffix(Message(e), Message(inner), Message(x));
    }
  }

  /** One level: the message of an error ends with that of the error it wraps. */
  lemma OuterMessage(e: Error)
    requires Unwrap(e).Some?
    ensures HasSuffix(Message(e), Message(Unwrap(e).value))
  {
    var mi := Message(Unwrap(e).value);
    var front := if e.Wrapped? then e.prefix else "[" + TypeName(e.c.kind) + "] ";
    assert Message(e) == front + mi;
    assert (front + mi)[|front|..] == mi;
  }

  lemma SuffixOfSuffix(a: string, b: string, c: string)
    requires HasSuffix(a, b) && HasSuffix(b, c)
    ensures HasSuffix(a, c)
  {
    assert a[|a| - |c|..] == b[|b| - |c|..];
  }

  /** errors.As(e, &*ValidationError): some error along the chain is a
      ValidationError. */
  function HasValidation(e: Error): (r: bool)
    ensures r <==> exists x :: InChain(e, x) && x.Validation?
  {
    e.Validation? || (Unwrap(e).Some? && HasValidation(Unwrap(e).value))
  }

  /** errors.As(e, &*ClassifiedError): the first ClassifiedError along the
      chain. None exactly when the chain holds none; otherwise one that is
      in the chain with no ClassifiedError before it. */
  function FindClassified(e: Error): (r: Option<ClassifiedError>)
    ensures r.None? <==> forall x :: InChain(e, x) ==> !x.Classified?
    ensures r.Some? ==> InChain(e, Classified(r.value))
    ensures r.Some? ==> forall x :: InChain(e, x) && x != Classified(r.value) && InChain(x, Classified(r.value)) ==> !x.Classified?
    ensures r.Some? ==> r.value.err < e
  {
    match e
    case Classified(c) =>
      assert InChain(e, e);
      assert forall x :: InChain(e, x) && InChain(x, e) ==> x == e by {
        forall x | InChain(e, x) && InChain(x, e) ensures x == e {
          ChainBelow(e, x);
          ChainBelow(x, e);
        }
      }
      Some(c)
    case Wrapped(_, inner) => FindClassified(inner)
    case _ => None
  }

  // -----------------------------------------------------------------------
  // The keyword table, as an independent statement of the classifier
  // -----------------------------------------------------------------------

  /** The keyword rules in the order they are tried (errors.go:66-142). */
  const Priority: seq<ErrorType> := [Network, Timeout, Auth, NotFound, InsufficientSpace, FileSystem]

  /** The keywords that select each kind. */
  function Keywords(t: ErrorType): seq<string> {
    match t
    case Network => ["network", "connection", "dial", "no route to host", "host is down"]
    case Timeout => ["timeout", "deadline exceeded", "i/o timeout"]
    case Auth => ["auth", "unauthorized", "forbidden", "permission denied", "access denied"]
    case NotFound => ["not found", "no such file", "does not exist", "404"]
    case InsufficientSpace => ["no space left", "insufficient space", "disk full", "quota exceeded"]
    case FileSystem => ["filesystem", "i/o error", "read-only"]
    case _ => []
  }

  /** Some keyword of kind `t` occurs in `text`. */
  predicate Hits(text: string, t: ErrorType) {
    exists j :: 0 <= j < |Keywords(t)| && Contains(text, Keywords(t)[j])
  }

  /** Whether an error of kind `t` is worth retrying / is transient. */
  predicate RetryableKind(t: ErrorType) {
    t == Network || t == Timeout || t == Unknown
  }

  predicate TemporaryKind(t: ErrorType) {
    t == Network || t == Timeout
  }

  // -----------------------------------------------------------------------
  // The classifier (errors.go:48-151)
  // -----------------------------------------------------------------------

  /** The keyword chain of ClassifyError (errors.go:66-150) applied to the
      lower-cased message: the kind with the retryable and temporary flags
      each branch sets. */
  function KeywordClass(s: string): (r: (ErrorType, bool, bool))
    ensures r.0 != InvalidInput
    ensures r.1 <==> RetryableKind(r.0)
    ensures r.2 <==> TemporaryKind(r.0)
  {
    if Contains(s, "network") || Contains(s, "connection") || Contains(s, "dial")
       || Contains(s, "no route to host") || Contains(s, "host is down") then
      (Network, true, true)
    else if Contains(s, "timeout") || Contains(s, "deadline exceeded") || Contains(s, "i/o timeout") then
      (Timeout, true, true)
    else if Contains(s, "auth") || Contains(s, "unauthorized") || Contains(s, "forbidden")
            || Contains(s, "permission denied") || Contains(s, "access denied") then
      (Auth, false, false)
    else if Contains(s, "not found") || Contains(s, "no such file") || Contains(s, "does not exist")
            || Contains(s, "404") then
      (NotFound, false, false)
    else if Contains(s, "no space left") || Contains(s, "insufficient space") || Contains(s, "disk full")
            || Contains(s, "quota exceeded") then
      (InsufficientSpace, false, false)
    else if Contains(s, "filesystem") || Contains(s, "i/o error") || Contains(s, "read-only") then
      (FileSystem, false, false)
    else
      (Unknown, true, false)
  }

  /** ClassifyError (errors.go:48-151). A nil error gives nil; otherwise the
      result wraps the very error given, its flags follow from its kind, and
      the kind is InvalidInput exactly when a ValidationError is in the
      chain, whatever the message says. */
  function ClassifyError(err: Option<Error>): (r: Option<ClassifiedError>)
    ensures r.None? <==> err.None?
    ensures r.Some? ==> r.value.err == err.value
    ensures r.Some? ==> (r.value.retryable <==> RetryableKind(r.value.kind))
    ensures r.Some? ==> (r.value.temporary <==> TemporaryKind(r.value.kind))
    ensures r.Some? ==> (r.value.kind == InvalidInput <==> HasValidation(err.value))
  {
    match err
    case None => None
    case Some(e) =>
      var s := ToLower(Message(e));
      if HasValidation(e) then
        Some(ClassifiedError(InvalidInput, e, false, false))
      else
        var (kind, retryable, temporary) := KeywordClass(s);
        Some(ClassifiedError(kind, e, retryable, temporary))
  }

  /** The first kind of `rules` whose keywords occur in `text`, or Unknown. */
  function FirstHit(text: string, rules: seq<ErrorType>): (r: ErrorType)
    requires Unknown !in rules
    ensures r == Unknown <==> forall j :: 0 <= j < |rules| ==> !Hits(text, rules[j])
    ensures r != Unknown ==>
              exists j :: 0 <= j < |rules| && rules[j] == r && Hits(text, r)
                          && forall i :: 0 <= i < j ==> !Hits(text, rules[i])
  {
    if rules == [] then Unknown
    else if Hits(text, rules[0]) then rules[0]
    else
      var r := FirstHit(text, rules[1..]);
      assert forall j :: 1 <= j < |rules| ==> rules[j] == rules[1..][j - 1];
      r
  }

  lemma NetworkRule(s: string)
    ensures Hits(s, Network) <==> (Contains(s, "network") || Contains(s, "connection") || Contains(s, "dial")
                                   || Contains(s, "no route to host") || Contains(s, "host is down"))
  {
    assert Keywords(Network)[0] == "network" && Keywords(Network)[1] == "connection";
    assert Keywords(Network)[2] == "dial" && Keywords(Network)[3] == "no route to host";
    assert Keywords(Network)[4] == "host is down";
  }

  lemma TimeoutRule(s: string)
    ensures Hits(s, Timeout) <==> (Contains(s, "timeout") || Contains(s, "deadline exceeded") || Contains(s, "i/o timeout"))
  {
    assert Keywords(Timeout)[0] == "timeout" && Keywords(Timeout)[1] == "deadline exceeded";
    assert Keywords(Timeout)[2] == "i/o timeout";
  }

  lemma AuthRule(s: string)
    ensures Hits(s, Auth) <==> (Contains(s, "auth") || Contains(s, "unauthorized") || Contains(s, "forbidden")
                                || Contains(s, "permission denied") || Contains(s, "access denied"))
  {
    assert Keywords(Auth)[0] == "auth" && Keywords(Auth)[1] == "unauthorized";
    assert Keywords(Auth)[2] == "forbidden" && Keywords(Auth)[3] == "permission denied";
    assert Keywords(Auth)[4] == "access denied";
  }

  lemma NotFoundRule(s: string)
    ensures Hits(s, NotFound) <==> (Contains(s, "not found") || Contains(s, "no such file") || Contains(s, "does not exist")
                                    || Contains(s, "404"))
  {
    assert Keywords(NotFound)[0] == "not found" && Keywords(NotFound)[1] == "no such file";
    assert Keywords(NotFound)[2] == "does not exist" && Keywords(NotFound)[3] == "404";
  }

  lemma SpaceRule(s: string)
    ensures Hits(s, InsufficientSpace) <==> (Contains(s, "no space left") || Contains(s, "insufficient space")
                                             || Contains(s, "disk full") || Contains(s, "quota exceeded"))
  {
    assert Keywords(InsufficientSpace)[0] == "no space left" && Keywords(InsufficientSpace)[1] == "insufficient space";
    assert Keywords(InsufficientSpace)[2] == "disk full" && Keywords(InsufficientSpace)[3] == "quota exceeded";
  }

  lemma FileSystemRule(s: string)
    ensures Hits(s, FileSystem) <==> (Contains(s, "filesystem") || Contains(s, "i/o error") || Contains(s, "read-only"))
  {
    assert Keywords(FileSystem)[0] == "filesystem" && Keywords(FileSystem)[1] == "i/o error";
    assert Keywords(FileSystem)[2] == "read-only";
  }

  /** First match wins: outside the validation case, the kind chosen is the
      first rule of `Priority` whose keywords occur in the lower-cased
      message (`FirstHit` states what that means), and Unknown when none. */
  lemma {:induction false} ClassifyByPriority(e: Error)
    requires !HasValidation(e)
    ensures ClassifyError(Some(e)).value.kind == FirstHit(ToLower(Message(e)), Priority)
  {
    KeywordsByPriority(ToLower(Message(e)));
  }

  /** The keyword chain picks the first rule of `Priority` that hits. */
  lemma {:induction false} KeywordsByPriority(s: string)
    ensures KeywordClass(s).0 == FirstHit(s, Priority)
  {
    var p1 := Priority[1..];
    assert p1 == [Timeout, Auth, NotFound, InsufficientSpace, FileSystem];
    NetworkRule(s);
    if !Hits(s, Network) {
      assert FirstHit(s, Priority) == FirstHit(s, p1);
      TimeoutRule(s);
      if !Hits(s, Timeout) {
        var p2 := p1[1..];
        assert p2 == [Auth, NotFound, InsufficientSpace, FileSystem];
        assert FirstHit(s, p1) == FirstHit(s, p2);
        LaterRules(s);
      }
    }
  }

  lemma {:induction false} LaterRules(s: string)
    requires !Hits(s, Network) && !Hits(s, Timeout)
    ensures KeywordClass(s).0 == FirstHit(s, [Auth, NotFound, InsufficientSpace, FileSystem])
  {
    var p2 := [Auth, NotFound, InsufficientSpace, FileSystem];
    NetworkRule(s);
    TimeoutRule(s);
    AuthRule(s);
    if !Hits(s, Auth) {
      var p3 := p2[1..];
      assert p3 == [NotFound, InsufficientSpace, FileSystem];
      assert FirstHit(s, p2) == FirstHit(s, p3);
      NotFoundRule(s);
      if !Hits(s, NotFound) {
        var p4 := p3[1..];
        assert p4 == [InsufficientSpace, FileSystem];
        assert FirstHit(s, p3) == FirstHit(s, p4);
        LastRules(s);
      }
    }
  }

  lemma {:induction false} LastRules(s: string)
    requires !Hits(s, Network) && !Hits(s, Timeout) && !Hits(s, Auth) && !Hits(s, NotFound)
    ensures KeywordClass(s).0 == FirstHit(s, [InsufficientSpace, FileSystem])
  {
    var p4 := [InsufficientSpace, FileSystem];
    NetworkRule(s);
    TimeoutRule(s);
    AuthRule(s);
    NotFoundRule(s);
    SpaceRule(s);
    FileSystemRule(s);
    if !Hits(s, InsufficientSpace) {
      var p5 := p4[1..];
      assert p5 == [FileSystem];
      assert FirstHit(s, p4) == FirstHit(s, p5);
      assert p5[1..] == [];
      assert FirstHit(s, p5) == if Hits(s, FileSystem) then FileSystem else FirstHit(s, p5[1..]);
    }
  }

  /** The classic ambiguity: a message naming both a connection and a
      timeout is a network error, because the network rule is tried first. */
  lemma ConnectionTimeoutIsNetwork()
    ensures ClassifyError(Some(Opaque("connection timeout"))).value.kind == Network
  {
    var s := ToLower("connection timeout");
    assert s == "connection timeout";
    assert OccursAt(s, "connection", 0);
  }

  /** Classified errors render as "[type] message" around the message of the
      error they wrap, and unwrap to exactly that error (errors.go:39-45). */
  lemma ClassifiedRendering(e: Error)
    ensures var c := ClassifyError(Some(e)).value;
            && Unwrap(Classified(c)) == Some(e)
            && Message(Classified(c)) == "[" + TypeName(c.kind) + "] " + Message(e)
            && HasSuffix(Message(Classified(c)), Message(e))
  {
  }

  // -----------------------------------------------------------------------
  // Queries (errors.go:153-198)
  // -----------------------------------------------------------------------

  /** IsRetryable: false on nil; a ClassifiedError already in the chain
      answers with its stored flag; otherwise the error is classified. */
  function IsRetryable(err: Option<Error>): (r: bool)
    ensures err.None? ==> !r
    ensures err.Some? && FindClassified(err.value).Some? ==> r == FindClassified(err.value).value.retryable
    ensures err.Some? && FindClassified(err.value).None? ==> (r <==> RetryableKind(ClassifyError(err).value.kind))
  {
    match err
    case None => false
    case Some(e) =>
      match FindClassified(e)
      case Some(c) => c.retryable
      case None => ClassifyError(err).value.retryable
  }

  /** IsTemporary, on the same pattern as IsRetryable. */
  function IsTemporary(err: Option<Error>): (r: bool)
    ensures err.None? ==> !r
    ensures err.Some? && FindClassified(err.value).Some? ==> r == FindClassified(err.value).value.temporary
    ensures err.Some? && FindClassified(err.value).None? ==> (r <==> TemporaryKind(ClassifyError(err).value.kind))
  {
    match err
    case None => false
    case Some(e) =>
      match FindClassified(e)
      case Some(c) => c.temporary
      case None => ClassifyError(err).value.temporary
  }

  /** GetErrorType: Unknown on nil, the stored kind of a ClassifiedError in
      the chain, otherwise the kind the classifier picks. */
  function GetErrorType(err: Option<Error>): (r: ErrorType)
    ensures err.None? ==> r == Unknown
    ensures err.Some? && FindClassified(err.value).Some? ==> r == FindClassified(err.value).value.kind
    ensures err.Some? && FindClassified(err.value).None? ==> r == ClassifyError(err).value.kind
  {
    match err
    case None => Unknown
    case Some(e) =>
      match FindClassified(e)
      case Some(c) => c.kind
      case None => ClassifyError(err).value.kind
  }

  /** Classifying first and querying afterwards agrees with querying the
      raw error, for an error whose chain holds no ClassifiedError yet. */
  lemma QueriesAgreeAfterClassify(e: Error)
    requires FindClassified(e).None?
    ensures var c := Some(Classified(ClassifyError(Some(e)).value));
            && GetErrorType(c) == GetErrorType(Some(e))
            && IsRetryable(c) == IsRetryable(Some(e))
            && IsTemporary(c) == IsTemporary(Some(e))
            && (IsRetryable(Some(e)) <==> RetryableKind(GetErrorType(Some(e))))
            && (IsTemporary(Some(e)) <==> TemporaryKind(GetErrorType(Some(e))))
  {
  }

  /** A stored classification is never re-derived from the text: wrapping a
      ClassifiedError keeps its kind and flags, even when its message would
      classify differently. */
  lemma StoredClassificationWins(c: ClassifiedError, prefix: string)
    ensures var w := Some(Wrapped(prefix, Classified(c)));
            GetErrorType(w) == c.kind && IsRetryable(w) == c.retryable && IsTemporary(w) == c.temporary
  {
    assert FindClassified(Wrapped(prefix, Classified(c))) == FindClassified(Classified(c)) == Some(c);
  }
}
