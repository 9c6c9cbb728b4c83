/** The fixed trip roster (script.js, PEOPLE) and the lookup by code that
    both the code validation and the startup screen choice use. */
module Roster {

  import opened Wrappers

  /** One participant: a five-letter upper-case code and a display name. */
  datatype Person = Person(code: string, name: string)

  /** The 17 participants, in display order. */
  const People: seq<Person> := [
    Person("NIKHI", "NIKHITHA REDD"),
    Person("KEERT", "KEERTHI"),
    Person("KALYA", "KALYANRE"),
    Person("DINES", "DINESH KUMAR"),
    Person("SRIKA", "SRIKANTH"),
    Person("ABHIS", "ABHISH"),
    Person("SEVIK", "SEVIKA"),
    Person("VAISH", "VAISHNAVI"),
    Person("PRASH", "PRASHAN"),
    Person("TEJAS", "TEJASWI REDDY"),
    Person("CHARA", "CHARANRE"),
    Person("SRINI", "SRINIKA"),
    Person("SANDE", "SANDEEP"),
    Person("PRUDH", "PRUDHVI"),
    Person("SRIJA", "SRIJA"),
    Person("VIVEK", "VIVEK REDDY"),
    Person("THIRU", "THIRUMALA")
  ]

  predicate IsUpperLetter(c: char) {
    'A' <= c <= 'Z'
  }

  /** True iff some roster entry carries exactly this code. */
  predicate IsRosterCode(code: string) {
    exists i :: 0 <= i < |People| && People[i].code == code
  }

  /** The codes in roster order: the `data-code` of each card the page builds. */
  function Codes(): (codes: seq<string>)
    ensures |codes| == |People|
    ensures forall i :: 0 <= i < |People| ==> codes[i] == People[i].code
  {
    seq(|People|, i requires 0 <= i < |People| => People[i].code)
  }

  /** Every code is five upper-case ASCII letters. */
  lemma CodesAreFiveUpperLetters()
    ensures |People| == 17
    ensures forall i :: 0 <= i < |People| ==> |People[i].code| == 5
    ensures forall i, k :: 0 <= i < |People| && 0 <= k < |People[i].code| ==> IsUpperLetter(People[i].code[k])
  {
  }

  /** No two roster entries share a code, so a code identifies one participant. */
  lemma CodesDistinct()
    ensures forall i, j :: 0 <= i < j < |People| ==> People[i].code != People[j].code
  {
  }

  /** PEOPLE.find(p => p.code === code) over any list of participants: the
      first entry whose code equals `code`, or None when there is none. */
  function Find(ps: seq<Person>, code: string): (r: Option<Person>)
    ensures r.None? <==> forall i :: 0 <= i < |ps| ==> ps[i].code != code
    ensures r.Some? ==> exists i :: 0 <= i < |ps| && ps[i] == r.value
                                    && ps[i].code == code
                                    && forall j :: 0 <= j < i ==> ps[j].code != code
  {
    if ps == [] then None
    else if ps[0].code == code then Some(ps[0])
    else Find(ps[1..], code)
  }

  /** The roster lookup finds a participant exactly for roster codes, and
      then the one entry with that code. */
  lemma FindInRoster(code: string)
    ensures Find(People, code).Some? <==> IsRosterCode(code)
    ensures Find(People, code).Some? ==> Find(People, code).value.code == code
  {
  }

  /** The lookup of the code at position k yields the participant at position k. */
  lemma {:induction false} FindAt(k: nat)
    requires k < |People|
    ensures Find(People, People[k].code) == Some(People[k])
  {
    CodesDistinct();
    var r := Find(People, People[k].code);
    var i :| 0 <= i < |People| && People[i] == r.value && People[i].code == People[k].code
             && forall j :: 0 <= j < i ==> People[j].code != People[k].code;
    assert i == k;
  }
}
