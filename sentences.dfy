/**
 * The sentence builder behind the message log: "The rat bites you.", "You
 * pick up the rock." Names come from the entity-name table, which says
 * whether a name is the second person ("you").
 */
module Sentences {
  import opened Options
  import opened Catalog

  /**
   * The name lookup as written: a missing id is meant to give a placeholder
   * row, but building it refers to an undefined variable, so the lookup
   * raises instead (None here).
   */
  function GetSafeNameAsWritten(names: map<string, EntityName>, id: string): (r: Option<EntityName>)
    ensures r.Some? <==> id in names
    ensures r.Some? ==> r.value == names[id]
  {
    if id in names then Some(names[id]) else None
  }

  /** An id the table does not have makes the as-written lookup raise. */
  lemma {:induction false} UnknownIdRaises()
    ensures GetSafeNameAsWritten(map["PLAYER" := EntityName("PLAYER", "you", true)], "RAT").None?
  {
    assert "RAT" != "PLAYER";
  }

  /** The intended lookup: the table's row, or a third-person placeholder "UNNAMED <id>". */
  function GetSafeName(names: map<string, EntityName>, id: string): (r: EntityName)
    ensures r.id == id || id in names
    ensures id !in names ==> !r.isSecondPerson && r.name == "UNNAMED " + id
  {
    if id in names then names[id] else EntityName(id, "UNNAMED " + id, false)
  }

  /** Where the as-written lookup succeeds, the intended one gives the same row; it never fails. */
  lemma {:induction false} SafeNameAgrees(names: map<string, EntityName>, id: string)
    ensures GetSafeNameAsWritten(names, id).Some? ==> GetSafeNameAsWritten(names, id).value == GetSafeName(names, id)
    ensures GetSafeNameAsWritten(names, id).None? ==> GetSafeName(names, id) == EntityName(id, "UNNAMED " + id, false)
  {
  }

  /**
   * A name as a noun phrase: the bare name for the second person, otherwise
   * the article, a space and the name. The phrase always ends with the name.
   */
  function NameWithArticle(name: EntityName, article: string): (r: string)
    ensures |r| >= |name.name| && r[|r| - |name.name|..] == name.name
    ensures name.isSecondPerson ==> r == name.name
    ensures !name.isSecondPerson ==> |r| == |article| + 1 + |name.name| && r[..|article| + 1] == article + " "
  {
    if name.isSecondPerson then name.name else article + " " + name.name
  }

  /** The verb agrees with the subject: second-person form for "you", third-person otherwise. */
  function VerbFor(subject: EntityName, verb: Verb): string {
    if subject.isSecondPerson then verb.present2p else verb.present3p
  }

  /** Upper-cases an ASCII letter; any other character is kept. */
  function UpperChar(c: char): (u: char)
    ensures 'a' <= c <= 'z' ==> 'A' <= u <= 'Z' && u as int == c as int - 32
    ensures !('a' <= c <= 'z') ==> u == c
  {
    if 'a' <= c <= 'z' then (c as int - 32) as char else c
  }

  /** The object phrase: a space and the object's name with its article, or nothing. */
  function ObjectPhrase(names: map<string, EntityName>, objectId: Option<string>, objectArticle: string): string {
    if Truthy(objectId) then " " + NameWithArticle(GetSafeName(names, objectId.value), objectArticle) else ""
  }

  /** The sentence before its first letter is upper-cased. */
  function RawSentence(names: map<string, EntityName>, subjectId: string, verb: Verb,
                       objectId: Option<string>, objectArticle: string): string
  {
    var name1 := GetSafeName(names, subjectId);
    NameWithArticle(name1, "the") + " " + VerbFor(name1, verb) + ObjectPhrase(names, objectId, objectArticle) + "."
  }

  /**
   * "Subject verb [object]." with the first character upper-cased and the
   * rest as built.
   */
  function SimpleDeclarativeSentence(names: map<string, EntityName>, subjectId: string, verb: Verb,
                                     objectId: Option<string>, objectArticle: string): (r: string)
    ensures |r| == |RawSentence(names, subjectId, verb, objectId, objectArticle)| >= 2
    ensures r[0] == UpperChar(RawSentence(names, subjectId, verb, objectId, objectArticle)[0])
    ensures r[1..] == RawSentence(names, subjectId, verb, objectId, objectArticle)[1..]
  {
    var s := RawSentence(names, subjectId, verb, objectId, objectArticle);
    [UpperChar(s[0])] + s[1..]
  }

  /**
   * Where each piece sits in a string that agrees from its second character
   * with `a + v + obj + "."`, for a non-empty `a`.
   */
  lemma {:induction false} CapitalizedPieces(r: string, s: string, a: string, v: string, obj: string)
    requires s == a + v + obj + "." && |a| >= 1
    requires |r| == |s| && r[1..] == s[1..]
    ensures |r| == |a| + |v| + |obj| + 1
    ensures r[|r| - 1] == '.'
    ensures r[|a|..|a| + |v|] == v
    ensures r[|a| + |v|..|r| - 1] == obj
  {
    assert s == a + (v + (obj + "."));
    assert (v + (obj + "."))[..|v|] == v;
    assert (obj + ".")[..|obj|] == obj;
    assert s[|a|..|a| + |v|] == v;
    assert s[|a| + |v|..|s| - 1] == obj;
    forall i | |a| <= i < |r|
      ensures r[i] == s[i]
    {
      assert r[i] == r[1..][i - 1];
    }
  }

  /**
   * The parts of a sentence, in order: the subject phrase, a space, the verb
   * form that agrees with the subject, the object phrase only for a truthy
   * object id, and a closing full stop.
   */
  lemma {:induction false} SentenceParts(names: map<string, EntityName>, subjectId: string, verb: Verb,
                                         objectId: Option<string>, objectArticle: string)
    ensures var r := SimpleDeclarativeSentence(names, subjectId, verb, objectId, objectArticle);
      var name1 := GetSafeName(names, subjectId);
      var subject := NameWithArticle(name1, "the");
      var v := VerbFor(name1, verb);
      var obj := ObjectPhrase(names, objectId, objectArticle);
      && |r| == |subject| + 1 + |v| + |obj| + 1
      && r[|r| - 1] == '.'
      && r[|subject| + 1..|subject| + 1 + |v|] == v
      && r[|subject| + 1 + |v|..|r| - 1] == obj
      && (obj != "" <==> Truthy(objectId))
  {
    var r := SimpleDeclarativeSentence(names, subjectId, verb, objectId, objectArticle);
    var s := RawSentence(names, subjectId, verb, objectId, objectArticle);
    var name1 := GetSafeName(names, subjectId);
    var subject := NameWithArticle(name1, "the");
    var a := subject + " ";
    var v := VerbFor(name1, verb);
    var obj := ObjectPhrase(names, objectId, objectArticle);
    assert s == a + v + obj + ".";
    assert |a| == |subject| + 1;
    assert |r| == |s| && r[1..] == s[1..];
    CapitalizedPieces(r, s, a, v, obj);
    assert obj != "" <==> Truthy(objectId);
  }

  /** A third-person subject starts the sentence with the capitalised article. */
  lemma {:induction false} ThirdPersonStartsWithThe(names: map<string, EntityName>, subjectId: string, verb: Verb,
                                                    objectId: Option<string>, objectArticle: string)
    requires !GetSafeName(names, subjectId).isSecondPerson
    ensures SimpleDeclarativeSentence(names, subjectId, verb, objectId, objectArticle)[..4] == "The "
  {
    var r := SimpleDeclarativeSentence(names, subjectId, verb, objectId, objectArticle);
    var s := RawSentence(names, subjectId, verb, objectId, objectArticle);
    var subject := NameWithArticle(GetSafeName(names, subjectId), "the");
    assert subject[..4] == "the ";
    assert s[..4] == "the " by {
      assert s == subject + (s[|subject|..]);
    }
    assert r[1..4] == s[1..4];
  }
}
