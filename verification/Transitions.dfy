/**
 `_signing_transitions`, which collects digests before and after signing over evidence files, and
 `_actual`, which checks the final verification evidence against them.
 */
module Transitions {
  import opened Wrappers

  /**
   One subject entry, with its fields as `str(item.get(...) or "")` reads them; NotAnObject when the entry is no
   object.
   */
  datatype Subject = NotAnObject | Subject(name: string, pre: string, post: string)

  /** An evidence file's header, and None when `subjects` is not a list. */
  datatype Evidence = Evidence(
    sourceSha: string, mode: string, productionSigned: bool, publicTrustClaim: bool, subjects: Option<seq<Subject>>)

  datatype Transition = Transition(pre: string, post: string)

  datatype TransitionError =
    | SourceMismatch
    | NotTestMode
    | FabricatedTrust
    | SubjectsMissing
    | InvalidSubject
    | InvalidDigest
    | DigestUnchanged
    | DuplicateTransition

  predicate IsHexDigit(c: char) {
    '0' <= c <= '9' || 'a' <= c <= 'f'
  }

  predicate IsSha256(s: string) {
    |s| == 64 && forall i | 0 <= i < |s| :: IsHexDigit(s[i])
  }

  /** The checks on a file before its subjects are looked at. */
  function HeaderError(sourceSha: string, e: Evidence): Option<TransitionError> {
    if e.sourceSha != sourceSha then Some(SourceMismatch)
    else if e.mode != "test" then Some(NotTestMode)
    else if e.productionSigned || e.publicTrustClaim then Some(FabricatedTrust)
    else if e.subjects.None? || e.subjects.value == [] then Some(SubjectsMissing)
    else None
  }

  /** The checks on a subject, apart from the one for duplicates. */
  function SubjectError(s: Subject): Option<TransitionError> {
    if s.NotAnObject? then Some(InvalidSubject)
    else if s.name == "" || !IsSha256(s.pre) || !IsSha256(s.post) then Some(InvalidDigest)
    else if s.pre == s.post then Some(DigestUnchanged)
    else None
  }

  /** The error codes of a file's header, in the order in which they come up. */
  lemma HeaderCodes(sourceSha: string, e: Evidence)
    ensures HeaderError(sourceSha, e)
         == if e.sourceSha != sourceSha then Some(SourceMismatch)
            else if e.mode != "test" then Some(NotTestMode)
            else if e.productionSigned || e.publicTrustClaim then Some(FabricatedTrust)
            else if e.subjects.None? || e.subjects.value == [] then Some(SubjectsMissing)
            else None
  {
  }

  /** A digest is 64 characters, each a digit or one of the letters a to f. */
  lemma IsSha256Iff(s: string)
    ensures IsSha256(s) <==> |s| == 64 && forall c | c in s :: '0' <= c <= '9' || 'a' <= c <= 'f'
  {
    if forall c | c in s :: '0' <= c <= '9' || 'a' <= c <= 'f' {
      forall i | 0 <= i < |s|
        ensures IsHexDigit(s[i])
      {
        assert s[i] in s;
      }
    }
  }

  /** The error codes of a subject, in the order in which they come up. */
  lemma SubjectCodes(s: Subject)
    ensures if s.NotAnObject? then SubjectError(s) == Some(InvalidSubject)
            else if s.name == "" || |s.pre| != 64 || |s.post| != 64
                    || (exists c :: (c in s.pre || c in s.post) && !('0' <= c <= '9' || 'a' <= c <= 'f')) then
              SubjectError(s) == Some(InvalidDigest)
            else if s.pre == s.post then SubjectError(s) == Some(DigestUnchanged)
            else SubjectError(s).None?
  {
    if s.Subject? {
      IsSha256Iff(s.pre);
      IsSha256Iff(s.post);
    }
  }

  function SubjectsOf(e: Evidence): seq<Subject> {
    if e.subjects.Some? then e.subjects.value else []
  }

  /** All subjects of all files, in order. */
  function Flatten(files: seq<Evidence>): seq<Subject> {
    if files == [] then [] else Flatten(files[..|files| - 1]) + SubjectsOf(files[|files| - 1])
  }

  ghost predicate DistinctNames(subjects: seq<Subject>) {
    forall i, j :: 0 <= i < j < |subjects| && subjects[i].Subject? && subjects[j].Subject? ==>
      subjects[i].name != subjects[j].name
  }

  ghost predicate Clean(subjects: seq<Subject>) {
    (forall s | s in subjects :: SubjectError(s).None?) && DistinctNames(subjects)
  }

  /** Every file and every subject is acceptable, and no name occurs twice anywhere. */
  ghost predicate Acceptable(sourceSha: string, files: seq<Evidence>) {
    (forall e | e in files :: HeaderError(sourceSha, e).None?) && Clean(Flatten(files))
  }

  /** What is acceptable, spelled out. */
  lemma AcceptableIff(sourceSha: string, files: seq<Evidence>)
    ensures Acceptable(sourceSha, files)
       <==> && (forall e | e in files ::
                  && e.sourceSha == sourceSha && e.mode == "test" && !e.productionSigned && !e.publicTrustClaim
                  && e.subjects.Some? && e.subjects.value != [])
            && (forall s | s in Flatten(files) ::
                  && s.Subject? && s.name != "" && s.pre != s.post && |s.pre| == 64 && |s.post| == 64
                  && forall c | c in s.pre || c in s.post :: '0' <= c <= '9' || 'a' <= c <= 'f')
            && DistinctNames(Flatten(files))
  {
    hide Flatten, DistinctNames;
    forall s | s in Flatten(files)
      ensures SubjectError(s).None?
         <==> && s.Subject? && s.name != "" && s.pre != s.post && |s.pre| == 64 && |s.post| == 64
              && forall c | c in s.pre || c in s.post :: '0' <= c <= '9' || 'a' <= c <= 'f'
    {
      SubjectCodes(s);
    }
  }

  /** The map holds exactly the subjects' transitions. */
  ghost predicate Holds(transitions: map<string, Transition>, subjects: seq<Subject>) {
    && (forall s | s in subjects ::
          s.Subject? && s.name in transitions && transitions[s.name] == Transition(s.pre, s.post))
    && (forall name | name in transitions :: exists s :: s in subjects && s.Subject? && s.name == name)
  }

  lemma CleanPrefix(a: seq<Subject>, b: seq<Subject>)
    requires Clean(a + b)
    ensures Clean(a)
  {
    assert forall i | 0 <= i < |a| :: a[i] == (a + b)[i];
  }

  lemma {:induction false} FlattenPrefix(files: seq<Evidence>, n: nat)
    requires n <= |files|
    ensures Flatten(files[..n]) <= Flatten(files)
    decreases |files| - n
  {
    if n == |files| {
      assert files[..n] == files;
    } else {
      assert files[..n + 1][..n] == files[..n];
      assert Flatten(files[..n + 1]) == Flatten(files[..n]) + SubjectsOf(files[n]);
      FlattenPrefix(files, n + 1);
    }
  }

  /** What is unclean about the first files is unclean about all of them. */
  lemma UncleanLater(files: seq<Evidence>, n: nat)
    requires n <= |files| && !Clean(Flatten(files[..n]))
    ensures !Clean(Flatten(files))
  {
    FlattenPrefix(files, n);
    var all, part := Flatten(files), Flatten(files[..n]);
    assert all == part + all[|part|..];
    if Clean(all) {
      CleanPrefix(part, all[|part|..]);
    }
  }

  /** One more subject keeps the list clean exactly when it has no error of its own and its name is new to the map. */
  lemma OneMore(transitions: map<string, Transition>, seen: seq<Subject>, item: Subject)
    requires Holds(transitions, seen) && Clean(seen)
    ensures Clean(seen + [item]) <==> SubjectError(item).None? && item.name !in transitions
    ensures Clean(seen + [item]) ==> Holds(transitions[item.name := Transition(item.pre, item.post)], seen + [item])
  {
    var longer := seen + [item];
    assert longer[|seen|] == item && item in longer;
    if SubjectError(item).None? {
      if item.name in transitions {
        var s :| s in seen && s.Subject? && s.name == item.name;
        var j :| 0 <= j < |seen| && seen[j] == s;
        assert longer[j] == s;
      } else {
        assert forall s | s in seen :: s.name != item.name;
      }
    }
  }

  function NamesOf(subjects: seq<Subject>): set<string> {
    set s | s in subjects && s.Subject? :: s.name
  }

  /** This subject is the first that cannot be added, and for this reason. */
  ghost predicate StopsAt(seen: seq<Subject>, subjects: seq<Subject>, k: nat, error: TransitionError) {
    && k < |subjects| && Clean(seen + subjects[..k])
    && if SubjectError(subjects[k]).Some? then SubjectError(subjects[k]) == Some(error)
       else error == DuplicateTransition && subjects[k].name in NamesOf(seen + subjects[..k])
  }

  /** This file is the first that stops the collection: by its header, or by one of its subjects. */
  ghost predicate FileStops(sourceSha: string, files: seq<Evidence>, i: nat, error: TransitionError) {
    && i < |files| && (forall e | e in files[..i] :: HeaderError(sourceSha, e).None?) && Clean(Flatten(files[..i]))
    && if HeaderError(sourceSha, files[i]).Some? then HeaderError(sourceSha, files[i]) == Some(error)
       else exists k :: StopsAt(Flatten(files[..i]), files[i].subjects.value, k, error)
  }

  /** The inner loop: adds the subjects of one file to what earlier files left. */
  method AddSubjects(collected: map<string, Transition>, ghost seen: seq<Subject>, subjects: seq<Subject>)
    returns (r: Result<map<string, Transition>, TransitionError>)
    requires Holds(collected, seen) && Clean(seen)
    ensures r.Success? <==> Clean(seen + subjects)
    ensures r.Success? ==> Holds(r.value, seen + subjects)
    ensures r.Failure? ==> exists k :: StopsAt(seen, subjects, k, r.error)
  {
    var transitions := collected;
    assert seen + subjects[..0] == seen;
    for k := 0 to |subjects|
      invariant Clean(seen + subjects[..k])
      invariant Holds(transitions, seen + subjects[..k])
    {
      var item := subjects[k];
      ghost var sofar := seen + subjects[..k];
      assert seen + subjects[..k + 1] == sofar + [item];
      assert seen + subjects == sofar + [item] + subjects[k + 1..];
      OneMore(transitions, sofar, item);
      var problem := SubjectError(item);
      if problem.None? && item.name in transitions {
        problem := Some(DuplicateTransition);
      }
      if problem.Some? {
        if Clean(seen + subjects) {
          CleanPrefix(sofar + [item], subjects[k + 1..]);
        }
        assert StopsAt(seen, subjects, k, problem.value);
        return Failure(problem.value);
      }
      transitions := transitions[item.name := Transition(item.pre, item.post)];
    }
    assert subjects[..|subjects|] == subjects;
    return Success(transitions);
  }

  /**
   The nested loops. They succeed exactly when everything is acceptable; the map then has
   one entry for each subject, with the digests of that subject, and every digest changed.
   */
  method SigningTransitions(sourceSha: string, files: seq<Evidence>)
    returns (r: Result<map<string, Transition>, TransitionError>)
    ensures r.Success? <==> Acceptable(sourceSha, files)
    ensures r.Success? ==> Holds(r.value, Flatten(files)) && |r.value| == |Flatten(files)|
    ensures r.Success? ==> forall name | name in r.value :: r.value[name].pre != r.value[name].post
    ensures r.Failure? ==> exists i :: FileStops(sourceSha, files, i, r.error)
  {
    var transitions: map<string, Transition> := map[];
    for i := 0 to |files|
      invariant forall e | e in files[..i] :: HeaderError(sourceSha, e).None?
      invariant Clean(Flatten(files[..i]))
      invariant Holds(transitions, Flatten(files[..i]))
    {
      var e := files[i];
      var problem := HeaderError(sourceSha, e);
      if problem.Some? {
        assert FileStops(sourceSha, files, i, problem.value);
        return Failure(problem.value);
      }
      assert files[..i + 1][..i] == files[..i];
      assert Flatten(files[..i + 1]) == Flatten(files[..i]) + e.subjects.value;
      var added := AddSubjects(transitions, Flatten(files[..i]), e.subjects.value);
      if added.Failure? {
        UncleanLater(files, i + 1);
        assert FileStops(sourceSha, files, i, added.error);
        return Failure(added.error);
      }
      transitions := added.value;
    }
    assert files[..|files|] == files;
    EntryPerSubject(transitions, Flatten(files));
    return Success(transitions);
  }

  lemma {:induction false} EntryPerSubject(transitions: map<string, Transition>, subjects: seq<Subject>)
    requires Holds(transitions, subjects) && Clean(subjects)
    ensures |transitions| == |subjects|
  {
    var names := NamesOf(subjects);
    NamesCount(subjects);
    assert transitions.Keys == names;
  }

  lemma {:induction false} NamesCount(subjects: seq<Subject>)
    requires Clean(subjects)
    ensures |NamesOf(subjects)| == |subjects|
  {
    if subjects == [] {
      assert NamesOf(subjects) == {};
    } else {
      var front, last := subjects[..|subjects| - 1], subjects[|subjects| - 1];
      assert subjects == front + [last];
      assert last in subjects && SubjectError(last).None?;
      CleanPrefix(front, [last]);
      NamesCount(front);
      assert last.name !in NamesOf(front);
      assert NamesOf(subjects) == NamesOf(front) + {last.name};
    }
  }

  /** A file up to the order of its subjects. */
  datatype Bag = Bag(header: Evidence, subjects: multiset<Subject>)

  function BagOf(e: Evidence): Bag {
    Bag(if e.subjects.Some? then e.(subjects := Some([])) else e, multiset(SubjectsOf(e)))
  }

  function BagList(files: seq<Evidence>): seq<Bag> {
    seq(|files|, i requires 0 <= i < |files| => BagOf(files[i]))
  }

  function Bags(files: seq<Evidence>): multiset<Bag> {
    multiset(BagList(files))
  }

  /** The same files in any order, with the subjects inside each in any order. */
  ghost predicate Shuffled(a: seq<Evidence>, b: seq<Evidence>) {
    Bags(a) == Bags(b)
  }

  lemma FlattenLast(files: seq<Evidence>, e: Evidence)
    ensures Flatten(files + [e]) == Flatten(files) + SubjectsOf(e)
  {
  }

  lemma Associates<T>(x: seq<T>, y: seq<T>, z: seq<T>)
    ensures (x + y) + z == x + (y + z)
  {
  }

  lemma {:induction false} FlattenConcat(a: seq<Evidence>, b: seq<Evidence>)
    ensures Flatten(a + b) == Flatten(a) + Flatten(b)
    decreases |b|
  {
    if b == [] {
      assert a + b == a;
    } else {
      hide Flatten;
      var front, last := b[..|b| - 1], b[|b| - 1];
      Associates(a, front, [last]);
      FlattenConcat(a, front);
      FlattenLast(a + front, last);
      FlattenLast(front, last);
      Associates(Flatten(a), Flatten(front), SubjectsOf(last));
      assert b == front + [last];
    }
  }

  lemma TakeOutOne<T>(s: seq<T>, j: nat)
    requires j < |s|
    ensures multiset(s) == multiset(s[..j] + s[j + 1..]) + multiset{s[j]}
  {
    assert s == s[..j] + ([s[j]] + s[j + 1..]);
  }

  function Without(files: seq<Evidence>, j: nat): seq<Evidence>
    requires j < |files|
  {
    files[..j] + files[j + 1..]
  }

  lemma TakeOutBag(files: seq<Evidence>, j: nat)
    requires j < |files|
    ensures Bags(files) == Bags(Without(files, j)) + multiset{BagOf(files[j])}
  {
    var list := BagList(files);
    TakeOutOne(list, j);
    assert BagList(Without(files, j)) == list[..j] + list[j + 1..];
  }

  lemma TakeOutSubjects(files: seq<Evidence>, j: nat)
    requires j < |files|
    ensures multiset(Flatten(files)) == multiset(Flatten(Without(files, j))) + multiset(SubjectsOf(files[j]))
  {
    hide Flatten, SubjectsOf;
    var left, one, right := files[..j], [files[j]], files[j + 1..];
    FlattenConcat(left, one + right);
    FlattenConcat(one, right);
    FlattenConcat(left, right);
    FlattenOne(files[j]);
    assert files == left + (one + right);
    MiddleLast(Flatten(left), SubjectsOf(files[j]), Flatten(right));
  }

  lemma MiddleLast<T>(l: seq<T>, m: seq<T>, r: seq<T>)
    ensures multiset(l + (m + r)) == multiset(l + r) + multiset(m)
  {
  }

  lemma FlattenOne(e: Evidence)
    ensures Flatten([e]) == SubjectsOf(e)
  {
  }

  lemma FindBag(files: seq<Evidence>, bag: Bag) returns (j: nat)
    requires bag in Bags(files)
    ensures j < |files| && BagOf(files[j]) == bag
  {
    j :| 0 <= j < |files| && BagList(files)[j] == bag;
  }

  /** Shuffled files flatten to the same subjects, counted with multiplicity. */
  lemma {:induction false} ShuffledFlatten(a: seq<Evidence>, b: seq<Evidence>)
    requires Shuffled(a, b)
    ensures multiset(Flatten(a)) == multiset(Flatten(b))
    decreases |a|
  {
    if a == [] {
      NoBags(a, b);
    } else {
      var last := |a| - 1;
      TakeOutBag(a, last);
      assert BagOf(a[last]) in Bags(b);
      var j := FindBag(b, BagOf(a[last]));
      TakeOutBag(b, j);
      SameRest(Bags(a), Bags(Without(a, last)), Bags(Without(b, j)), BagOf(a[last]));
      ShuffledFlatten(Without(a, last), Without(b, j));
      TakeOutSubjects(a, last);
      TakeOutSubjects(b, j);
      SameBagSameSubjects(a[last], b[j]);
    }
  }

  lemma SameRest(all: multiset<Bag>, a: multiset<Bag>, b: multiset<Bag>, bag: Bag)
    requires all == a + multiset{bag} && all == b + multiset{bag}
    ensures a == b
  {
    assert a == all - multiset{bag} && b == all - multiset{bag};
  }

  lemma NoBags(a: seq<Evidence>, b: seq<Evidence>)
    requires a == [] && Shuffled(a, b)
    ensures b == []
  {
    assert |BagList(b)| == |multiset(BagList(b))| == |multiset(BagList(a))|;
  }

  lemma SameBagSameSubjects(e: Evidence, f: Evidence)
    requires BagOf(e) == BagOf(f)
    ensures multiset(SubjectsOf(e)) == multiset(SubjectsOf(f))
    ensures |SubjectsOf(e)| == |SubjectsOf(f)|
  {
    assert |multiset(SubjectsOf(e))| == |SubjectsOf(e)| && |multiset(SubjectsOf(f))| == |SubjectsOf(f)|;
  }

  predicate AllValid(subjects: seq<Subject>) {
    forall s | s in subjects :: SubjectError(s).None?
  }

  lemma ValidAreSubjects(subjects: seq<Subject>)
    requires AllValid(subjects)
    ensures forall s | s in subjects :: s.Subject?
  {
  }

  lemma NamesOneMore(front: seq<Subject>, last: Subject)
    requires last.Subject?
    ensures NamesOf(front + [last]) == NamesOf(front) + {last.name}
  {
  }

  lemma NewNameStaysDistinct(front: seq<Subject>, last: Subject)
    requires DistinctNames(front) && last.Subject? && last.name !in NamesOf(front)
    ensures DistinctNames(front + [last])
  {
  }

  /** Valid subjects with as many names as entries have distinct names. */
  lemma {:induction false} CleanFromCount(subjects: seq<Subject>)
    requires AllValid(subjects)
    ensures |NamesOf(subjects)| <= |subjects|
    ensures |NamesOf(subjects)| == |subjects| ==> Clean(subjects)
  {
    if subjects == [] {
      assert NamesOf(subjects) == {};
    } else {
      hide SubjectError, NamesOf, DistinctNames;
      var front, last := subjects[..|subjects| - 1], subjects[|subjects| - 1];
      assert subjects == front + [last];
      assert last in subjects && last.Subject? by { ValidAreSubjects(subjects); }
      CleanFromCount(front);
      NamesOneMore(front, last);
      if last.name !in NamesOf(front) && |NamesOf(front)| == |front| {
        NewNameStaysDistinct(front, last);
      }
    }
  }

  lemma CleanIgnoresOrder(a: seq<Subject>, b: seq<Subject>)
    requires multiset(a) == multiset(b)
    ensures Clean(a) <==> Clean(b)
  {
    SameElements(a, b);
    assert NamesOf(a) == NamesOf(b);
    if Clean(a) {
      NamesCount(a);
      CleanFromCount(b);
    }
    if Clean(b) {
      NamesCount(b);
      CleanFromCount(a);
    }
  }

  lemma SameElements(a: seq<Subject>, b: seq<Subject>)
    requires multiset(a) == multiset(b)
    ensures forall s :: s in a <==> s in b
    ensures |a| == |b|
  {
    assert forall s :: s in a <==> s in multiset(a);
    assert forall s :: s in b <==> s in multiset(b);
    assert |a| == |multiset(a)| == |multiset(b)| == |b|;
  }

  lemma HeaderIgnoresOrder(sourceSha: string, a: seq<Evidence>, b: seq<Evidence>, e: Evidence)
    requires Shuffled(a, b) && e in a && forall f | f in b :: HeaderError(sourceSha, f).None?
    ensures HeaderError(sourceSha, e).None?
  {
    var i :| 0 <= i < |a| && a[i] == e;
    TakeOutBag(a, i);
    assert BagOf(e) in Bags(b);
    var j := FindBag(b, BagOf(e));
    SameBagSameSubjects(e, b[j]);
    assert b[j] in b;
  }

  /**
   Neither the order of the files nor the order of the subjects inside them matters: shuffled
   evidence is accepted together, and gives the same map.
   */
  lemma OrderDoesNotMatter(
    sourceSha: string, a: seq<Evidence>, b: seq<Evidence>, m: map<string, Transition>, n: map<string, Transition>)
    requires Shuffled(a, b)
    ensures Acceptable(sourceSha, a) <==> Acceptable(sourceSha, b)
    ensures Holds(m, Flatten(a)) && Holds(n, Flatten(b)) ==> m == n
  {
    hide Clean, Shuffled, Flatten, HeaderError;
    ShuffledFlatten(a, b);
    CleanIgnoresOrder(Flatten(a), Flatten(b));
    SameElements(Flatten(a), Flatten(b));
    ShuffledSym(a, b);
    if Acceptable(sourceSha, b) {
      forall e | e in a
        ensures HeaderError(sourceSha, e).None?
      {
        HeaderIgnoresOrder(sourceSha, a, b, e);
      }
    }
    if Acceptable(sourceSha, a) {
      forall e | e in b
        ensures HeaderError(sourceSha, e).None?
      {
        HeaderIgnoresOrder(sourceSha, b, a, e);
      }
    }
    if Holds(m, Flatten(a)) && Holds(n, Flatten(b)) {
      assert m.Keys == n.Keys;
    }
  }

  lemma ShuffledSym(a: seq<Evidence>, b: seq<Evidence>)
    requires Shuffled(a, b)
    ensures Shuffled(b, a)
  {
  }

  /** One subject of the final verification; its digest is "" unless it is a string. */
  datatype FinalSubject =
    | NoFinalObject
    | FinalSubject(name: string, status: string, signtoolVerified: bool, timestampVerified: bool, digest: string)

  datatype FinalEvidence = FinalEvidence(
    sourceSha: string, mode: string, productionSigned: bool, publicTrustClaim: bool,
    hashAlgorithm: string, timestampProtocol: string, subjects: Option<seq<FinalSubject>>)

  datatype ActualError =
    | WrongHeader
    | SigningEvidence(error: TransitionError)
    | FinalSubjectsMissing
    | RequiredSubjectMissing
    | RequiredTransitionMissing
    | InvalidFinalSubject
    | StatusNotValid
    | NotVerified
    | FinalDigestMismatch

  const REQUIRED: set<string> := {"KodepoiaStudio.exe", "KodepoiaSetup.exe"}

  predicate FinalHeader(sourceSha: string, e: FinalEvidence) {
    && e.sourceSha == sourceSha && e.mode == "test" && !e.productionSigned && !e.publicTrustClaim
    && e.hashAlgorithm == "sha256" && e.timestampProtocol == "RFC3161"
  }

  function FinalNames(subjects: seq<FinalSubject>): set<string> {
    set item | item in subjects && item.FinalSubject? :: item.name
  }

  predicate Verified(item: FinalSubject) {
    item.FinalSubject? && item.status == "Valid" && item.signtoolVerified && item.timestampVerified
  }

  /** The final evidence is about the very files that signing produced. */
  ghost predicate Agrees(signed: seq<Subject>, subjects: seq<FinalSubject>) {
    && REQUIRED <= FinalNames(subjects) && REQUIRED <= NamesOf(signed)
    && forall item | item in subjects ::
         Verified(item) && forall s | s in signed && s.Subject? && s.name == item.name :: item.digest == s.post
  }

  /** What `_actual` accepts. */
  ghost predicate Accepted(sourceSha: string, e: FinalEvidence, files: seq<Evidence>) {
    && e.sourceSha == sourceSha && e.mode == "test" && !e.productionSigned && !e.publicTrustClaim
    && e.hashAlgorithm == "sha256" && e.timestampProtocol == "RFC3161"
    && Acceptable(sourceSha, files)
    && e.subjects.Some? && Agrees(Flatten(files), e.subjects.value)
  }

  /** The error of one final subject, given the collected transitions. */
  function FinalError(transitions: map<string, Transition>, item: FinalSubject): Option<ActualError> {
    if item.NoFinalObject? then Some(InvalidFinalSubject)
    else if item.status != "Valid" then Some(StatusNotValid)
    else if !item.signtoolVerified || !item.timestampVerified then Some(NotVerified)
    else if item.name in transitions && item.digest != transitions[item.name].post then Some(FinalDigestMismatch)
    else None
  }

  /** The checks that `_actual` makes against the collected map are checks against the signing subjects. */
  lemma AgreesIff(transitions: map<string, Transition>, signed: seq<Subject>, subjects: seq<FinalSubject>)
    requires Holds(transitions, signed)
    ensures Agrees(signed, subjects)
       <==> && REQUIRED <= FinalNames(subjects) && REQUIRED <= transitions.Keys
            && forall item | item in subjects :: FinalError(transitions, item).None?
  {
  }

  /** `_actual`, up to its report. It accepts exactly when headers, signing evidence and final evidence all agree. */
  method Actual(sourceSha: string, evidence: FinalEvidence, files: seq<Evidence>)
    returns (r: Result<map<string, Transition>, ActualError>)
    ensures r.Success? <==> Accepted(sourceSha, evidence, files)
    // The error codes, in the order in which they come up.
    ensures if !FinalHeader(sourceSha, evidence) then r == Failure(WrongHeader)
            else if !Acceptable(sourceSha, files) then
              r.Failure? && r.error.SigningEvidence? && exists i :: FileStops(sourceSha, files, i, r.error.error)
            else if evidence.subjects.None? then r == Failure(FinalSubjectsMissing)
            else if !(REQUIRED <= FinalNames(evidence.subjects.value)) then r == Failure(RequiredSubjectMissing)
            else if !(REQUIRED <= NamesOf(Flatten(files))) then r == Failure(RequiredTransitionMissing)
            else r.Success? || exists item, t ::
                                 && item in evidence.subjects.value && Holds(t, Flatten(files))
                                 && FinalError(t, item) == Some(r.error)
    ensures r.Success? ==> Holds(r.value, Flatten(files))
  {
    hide Agrees, Holds, Flatten, FinalError, Acceptable;
    if !FinalHeader(sourceSha, evidence) {
      return Failure(WrongHeader);
    }
    var collected := SigningTransitions(sourceSha, files);
    if collected.Failure? {
      return Failure(SigningEvidence(collected.error));
    }
    var transitions := collected.value;
    if evidence.subjects.None? {
      return Failure(FinalSubjectsMissing);
    }
    var subjects := evidence.subjects.value;
    AgreesIff(transitions, Flatten(files), subjects);
    if !(REQUIRED <= FinalNames(subjects)) {
      return Failure(RequiredSubjectMissing);
    }
    if !(REQUIRED <= transitions.Keys) {
      return Failure(RequiredTransitionMissing);
    }
    for i := 0 to |subjects|
      invariant forall item | item in subjects[..i] :: FinalError(transitions, item).None?
    {
      var problem := FinalError(transitions, subjects[i]);
      if problem.Some? {
        return Failure(problem.value);
      }
    }
    return Success(transitions);
  }

  /**
   This subject is the only signing of the file, changed its digest, and every final entry about the file has the new
   one.
   */
  ghost predicate SignedOnce(signed: seq<Subject>, finals: seq<FinalSubject>, name: string, s: Subject) {
    && s in signed && s.Subject? && s.name == name && s.pre != s.post
    && (forall t | t in signed && t.Subject? && t.name == name :: t == s)
    && (forall item | item in finals :: item.FinalSubject? && (item.name == name ==> item.digest == s.post))
  }

  lemma NameOnce(signed: seq<Subject>, s: Subject)
    requires DistinctNames(signed) && s in signed && s.Subject?
    ensures forall t | t in signed && t.Subject? && t.name == s.name :: t == s
  {
  }

  /**
   What acceptance says about a required installer: it was signed once, from a different digest, and
   every final entry about it has the one digest that signing left.
   */
  lemma RequiredWereSignedOnce(sourceSha: string, e: FinalEvidence, files: seq<Evidence>, name: string)
    requires Accepted(sourceSha, e, files) && (name == "KodepoiaStudio.exe" || name == "KodepoiaSetup.exe")
    ensures exists s :: SignedOnce(Flatten(files), e.subjects.value, name, s)
  {
    hide Flatten;
    var signed := Flatten(files);
    assert name in NamesOf(signed);
    var s :| s in signed && s.Subject? && s.name == name;
    NameOnce(signed, s);
    assert SubjectError(s).None?;
    assert SignedOnce(signed, e.subjects.value, name, s);
  }

  /** The verdict does not depend on the order of the signing files, of their subjects, or of the final subjects. */
  lemma VerdictIgnoresOrder(sourceSha: string, e: FinalEvidence, f: FinalEvidence, a: seq<Evidence>, b: seq<Evidence>)
    requires Shuffled(a, b) && e.subjects.Some? && f == e.(subjects := f.subjects)
    requires f.subjects.Some? && multiset(e.subjects.value) == multiset(f.subjects.value)
    ensures Accepted(sourceSha, e, a) <==> Accepted(sourceSha, f, b)
  {
    hide Shuffled, Acceptable, Flatten, Verified;
    OrderDoesNotMatter(sourceSha, a, b, map[], map[]);
    ShuffledFlatten(a, b);
    SameElements(Flatten(a), Flatten(b));
    var x, y := e.subjects.value, f.subjects.value;
    assert forall item :: item in x <==> item in multiset(x);
    assert forall item :: item in y <==> item in multiset(y);
    assert FinalNames(x) == FinalNames(y);
    assert NamesOf(Flatten(a)) == NamesOf(Flatten(b));
    assert Agrees(Flatten(a), x) <==> Agrees(Flatten(b), y);
  }
}
