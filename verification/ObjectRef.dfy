/** Object names of the form "type:id", split at their first colon. */
module ObjectRef {
  import opened Outcomes
  import Text

  datatype Ref = Ref(objectType: string, id: string)

  function Name(objectType: string, id: string): string {
    objectType + ":" + id
  }

  /** Splits a name; a name without a colon, a type or an identifier is not an object. */
  function Parse(name: string): Option<Ref> {
    var i := Text.IndexOf(name, ':');
    if i <= 0 || i == |name| - 1 then None else Some(Ref(name[..i], name[i + 1..]))
  }

  /** `strings.Cut` at the first colon; the last result says whether there was one. */
  function Cut(name: string): (string, string, bool) {
    var i := Text.IndexOf(name, ':');
    if i < 0 then (name, "", false) else (name[..i], name[i + 1..], true)
  }

  /** Splitting and rejoining a name gives it back, and the type holds no colon. */
  lemma ParseThenName(name: string)
    requires Parse(name).Some?
    ensures Name(Parse(name).value.objectType, Parse(name).value.id) == name
    ensures name == Parse(name).value.objectType + ":" + Parse(name).value.id
    ensures ':' !in Parse(name).value.objectType && Parse(name).value.objectType != "" && Parse(name).value.id != ""
  {
    var i := Text.IndexOf(name, ':');
    assert name == name[..i] + [name[i]] + name[i + 1..];
  }

  /** A name is split where it was joined, colons of the identifier included, exactly when the parts are usable. */
  lemma NameThenParse(objectType: string, id: string)
    ensures Parse(Name(objectType, id)) == Some(Ref(objectType, id)) <==>
            objectType != "" && ':' !in objectType && id != ""
  {
    var name := Name(objectType, id);
    var i := Text.IndexOf(name, ':');
    assert name[|objectType|] == ':';
    assert name[..|objectType|] == objectType && name[|objectType| + 1..] == id;
    if i < |objectType| {
      assert name[i] == objectType[i];
      assert ':' in objectType;
      assert |name[..i]| == i;
    }
  }

  /** The name is this type, a colon and this identifier. */
  ghost predicate IsObject(name: string, objectType: string, id: string) {
    name == objectType + ":" + id && objectType != "" && ':' !in objectType && id != ""
  }

  /** A name is split into exactly the parts it is made of; it is none exactly when it is made of none. */
  lemma ParseExactly(name: string, ref: Ref)
    ensures Parse(name) == Some(ref) <==> IsObject(name, ref.objectType, ref.id)
    ensures Parse(name).None? <==> !exists t, id :: IsObject(name, t, id)
  {
    if Parse(name).Some? {
      ParseThenName(name);
      assert IsObject(name, Parse(name).value.objectType, Parse(name).value.id);
    }
    forall t, id | IsObject(name, t, id) ensures Parse(name) == Some(Ref(t, id)) {
      NameThenParse(t, id);
    }
  }

  /** The two splits in the source agree on what an object is. */
  lemma CutAgreesWithParse(name: string)
    ensures var (t, id, ok) := Cut(name);
            Parse(name) == if ok && t != "" && id != "" then Some(Ref(t, id)) else None
  {}
}
