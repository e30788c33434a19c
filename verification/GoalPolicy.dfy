/** src/domain/projectManager/goalPolicy.ts: what makes two goals duplicates. */
module GoalPolicy {
  import opened Common
  import opened Text
  import opened Sorting
  import opened ProjectTypes

  function NormalizeProjectGoalTitle(title: string): string {
    CollapseSpaces(Lower(Trim(title)))
  }

  function Identities(refs: seq<EvidenceRef>): (r: seq<string>)
    ensures forall id :: id in r <==> exists e :: e in refs && EvidenceIdentity(e) == id
  {
    if refs == [] then []
    else
      assert forall e :: e in refs <==> e == refs[0] || e in refs[1..];
      [EvidenceIdentity(refs[0])] + Identities(refs[1..])
  }

  /** The record whose SHA-256 is the signature. */
  datatype SignaturePayload = SignaturePayload(repositoryName: string, title: string, evidence: seq<string>)

  function PayloadOf(repositoryName: string, title: string, refs: seq<EvidenceRef>): SignaturePayload {
    SignaturePayload(
      repositoryName,
      NormalizeProjectGoalTitle(title),
      Sort(Dedup(Identities(refs)), StringLe))
  }

  /** Two titles normalise alike exactly when they have the same words, case aside. */
  lemma SameTitleIff(a: string, b: string)
    ensures NormalizeProjectGoalTitle(a) == NormalizeProjectGoalTitle(b) <==> Words(Lower(a)) == Words(Lower(b))
  {
    TitleIsItsWords(a);
    TitleIsItsWords(b);
    if NormalizeProjectGoalTitle(a) == NormalizeProjectGoalTitle(b) {
      JoinIsInjective(Words(Lower(a)), Words(Lower(b)));
    }
  }

  lemma TitleIsItsWords(t: string)
    ensures NormalizeProjectGoalTitle(t) == Join(Words(Lower(t)))
  {
    LowerTrim(t);
    WordsOfTrim(Lower(t));
    TrimHasCleanEnds(Lower(t));
    CollapseIsJoin(Trim(Lower(t)));
  }

  ghost predicate Cites(refs: seq<EvidenceRef>, e: EvidenceRef) {
    exists f :: f in refs && SameEvidence(e, f)
  }

  ghost predicate CitesAll(refs: seq<EvidenceRef>, others: seq<EvidenceRef>) {
    forall e :: e in others ==> Cites(refs, e)
  }

  /** The same evidence, in any order, with any repetition, case and padding of the references. */
  ghost predicate SameEvidenceSets(a: seq<EvidenceRef>, b: seq<EvidenceRef>) {
    CitesAll(a, b) && CitesAll(b, a)
  }

  lemma CitesIff(refs: seq<EvidenceRef>, e: EvidenceRef)
    ensures EvidenceIdentity(e) in Identities(refs) <==> Cites(refs, e)
  {
    forall f | f in refs ensures EvidenceIdentity(f) == EvidenceIdentity(e) <==> SameEvidence(e, f) {
      SameIdentityIff(e, f);
    }
  }

  lemma CitesAllIff(a: seq<EvidenceRef>, b: seq<EvidenceRef>)
    ensures SetOf(Identities(b)) <= SetOf(Identities(a)) <==> CitesAll(a, b)
  {
    forall e | e in b
      ensures EvidenceIdentity(e) in SetOf(Identities(b))
      ensures EvidenceIdentity(e) in SetOf(Identities(a)) <==> Cites(a, e)
    {
      CitesIff(a, e);
    }
    if CitesAll(a, b) {
      forall id | id in SetOf(Identities(b)) ensures id in SetOf(Identities(a)) {
        var e :| e in b && EvidenceIdentity(e) == id;
        assert Cites(a, e);
      }
    }
  }

  /** The signed payload of two goals is the same exactly when repository, title words and evidence are. */
  lemma SamePayloadIff(
    repoA: string, titleA: string, refsA: seq<EvidenceRef>, repoB: string, titleB: string, refsB: seq<EvidenceRef>)
    ensures PayloadOf(repoA, titleA, refsA) == PayloadOf(repoB, titleB, refsB) <==>
            && repoA == repoB
            && Words(Lower(titleA)) == Words(Lower(titleB))
            && SameEvidenceSets(refsA, refsB)
  {
    SameTitleIff(titleA, titleB);
    SortedSetIsCanonical(Identities(refsA), Identities(refsB));
    CitesAllIff(refsA, refsB);
    CitesAllIff(refsB, refsA);
  }
}
