/**
 * How the patient pages find a patient's record: by email or username,
 * compared after lower-casing, taking the first record that answers.
 */
module Accounts {
  import opened Wrappers
  import opened Text
  import opened Seqs
  import opened Records

  /**
   * The lookup every patient handler uses: the record's email or its
   * username, lower-cased, equals the (already lower-cased) identifier.
   */
  predicate MatchesIdentifier(p: Patient, ident: string) {
    LowerStr(p.email) == ident || LowerStr(p.username) == ident
  }

  /** `storedPatients.find(...)`, as the index of the found record. */
  function FindAccount(ps: seq<Patient>, ident: string): Option<nat> {
    FindFirst(ps, (p: Patient) => MatchesIdentifier(p, ident))
  }

  /** Record i is the first one the identifier selects. */
  ghost predicate FirstAccount(ps: seq<Patient>, ident: string, i: nat) {
    i < |ps| && MatchesIdentifier(ps[i], ident) &&
    forall j :: 0 <= j < i ==> !MatchesIdentifier(ps[j], ident)
  }

  /** FindAccount returns exactly the first record the identifier selects. */
  lemma FindAccountIsFirst(ps: seq<Patient>, ident: string)
    ensures FindAccount(ps, ident).Some? ==> FirstAccount(ps, ident, FindAccount(ps, ident).value)
    ensures FindAccount(ps, ident).None? <==> forall i :: 0 <= i < |ps| ==> !MatchesIdentifier(ps[i], ident)
    ensures forall i: nat :: FirstAccount(ps, ident, i) ==> FindAccount(ps, ident) == Some(i)
  {
    forall i: nat | FirstAccount(ps, ident, i)
      ensures FindAccount(ps, ident) == Some(i)
    {
      FindFirstIsFirst(ps, (p: Patient) => MatchesIdentifier(p, ident), i);
    }
  }

  /**
   * persistPatient's test for "the same account as the one on screen": the
   * email or the username equals the current record's, up to case.
   */
  predicate SameAccount(p: Patient, current: Patient) {
    LowerStr(p.email) == LowerStr(current.email) || LowerStr(p.username) == LowerStr(current.username)
  }
}
