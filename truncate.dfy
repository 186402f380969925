/** `truncateContent` of the AI service: content longer than the limit is
    parsed as JSON, the fields of a job description or a résumé are capped
    (texts cut with "...", lists shortened, low-priority fields deleted),
    and the object is serialised again. Parsing and serialising are
    parameters; a parse failure, and any property access the JavaScript
    would throw on, give `undefined` (None). */
module Truncate {
  import opened Wrappers

  /** A parsed JSON value. Objects keep their keys in order. */
  datatype Json =
    | JNull
    | JBool(b: bool)
    | JNum(n: real)
    | JStr(s: string)
    | JArr(items: seq<Json>)
    | JObj(fields: seq<(string, Json)>)

  const Ellipsis: string := "..."

  /** JavaScript truthiness of a JSON value. */
  predicate Truthy(v: Json)
  {
    match v
    case JNull => false
    case JBool(b) => b
    case JNum(n) => n != 0.0
    case JStr(s) => s != []
    case JArr(_) => true
    case JObj(_) => true
  }

  // ----- Object fields -----

  /** Property read: the value under the first occurrence of `key`. */
  function Get(fields: seq<(string, Json)>, key: string): Option<Json>
  {
    if fields == [] then None
    else if fields[0].0 == key then Some(fields[0].1)
    else Get(fields[1..], key)
  }

  /** Property assignment to a key that is present: its value is replaced
      where it stands. */
  function Set(fields: seq<(string, Json)>, key: string, v: Json): (r: seq<(string, Json)>)
    ensures |r| == |fields|
    ensures forall i | 0 <= i < |r| :: r[i].0 == fields[i].0
  {
    if fields == [] then []
    else if fields[0].0 == key then [(key, v)] + fields[1..]
    else [fields[0]] + Set(fields[1..], key, v)
  }

  /** `delete obj.key`. */
  function Delete(fields: seq<(string, Json)>, key: string): (r: seq<(string, Json)>)
    ensures |r| <= |fields|
  {
    if fields == [] then []
    else if fields[0].0 == key then Delete(fields[1..], key)
    else [fields[0]] + Delete(fields[1..], key)
  }

  lemma {:induction false} GetSet(fields: seq<(string, Json)>, key: string, v: Json, other: string)
    requires Get(fields, key).Some?
    ensures Get(Set(fields, key, v), key) == Some(v)
    ensures other != key ==> Get(Set(fields, key, v), other) == Get(fields, other)
  {
    if fields[0].0 != key {
      GetSet(fields[1..], key, v, other);
    }
  }

  lemma {:induction false} GetDelete(fields: seq<(string, Json)>, key: string, other: string)
    ensures Get(Delete(fields, key), key) == None
    ensures other != key ==> Get(Delete(fields, key), other) == Get(fields, other)
  {
    if fields != [] {
      GetDelete(fields[1..], key, other);
    }
  }

  // ----- Value steps -----

  /** A text longer than `limit`: its first `limit` characters and "...". */
  function Capped(s: string, limit: nat): string
  {
    if |s| > limit then s[..limit] + Ellipsis else s
  }

  /** Whether `v.length > limit` holds for a value that is not a string:
      an array by its number of entries, an object by a numeric `length`
      property of its own. Other values have no `length`. */
  predicate TooLong(v: Json, limit: nat)
  {
    match v
    case JArr(items) => |items| > limit
    case JObj(fs) => Get(fs, "length").Some? && Get(fs, "length").value.JNum?
                     && Get(fs, "length").value.n > limit as real
    case _ => false
  }

  /** `if (v && v.length > limit) v = v.substring(0, limit) + "..."`:
      a long string is cut; an array or an object that passes the length
      test has no `substring`, which throws; any other value is left alone. */
  function CutText(v: Json, limit: nat): Option<Json>
  {
    match v
    case JStr(s) => Some(JStr(Capped(s, limit)))
    case _ => if TooLong(v, limit) then None else Some(v)
  }

  /** `if (v && Array.isArray(v)) v = v.slice(0, n)`. */
  function Slice(v: Json, n: nat): Json
  {
    match v
    case JArr(items) => if |items| > n then JArr(items[..n]) else v
    case _ => v
  }

  /** `if (v && Array.isArray(v)) v = [v[0]]`; the first element of an
      empty array is `undefined`, which serialises as `null`. */
  function FirstOnly(v: Json): Json
  {
    match v
    case JArr(items) => JArr([if items == [] then JNull else items[0]])
    case _ => v
  }

  /** What is done to one field: a text cut, an array sliced, or an array
      reduced to its first element. */
  datatype Step = Cut(limit: nat) | SliceTo(n: nat) | First

  function Apply(step: Step, v: Json): Option<Json>
  {
    match step
    case Cut(limit) => CutText(v, limit)
    case SliceTo(n) => Some(Slice(v, n))
    case First => Some(FirstOnly(v))
  }

  /** Applies a step to a field that is present and truthy; only a cut of
      a non-string value longer than the cut throws. */
  function Update(fields: seq<(string, Json)>, key: string, step: Step): (r: Option<seq<(string, Json)>>)
    ensures r.None? <==> step.Cut? && Get(fields, key).Some? && TooLong(Get(fields, key).value, step.limit)
  {
    match Get(fields, key)
    case Some(v) =>
      if Truthy(v) then
        match Apply(step, v)
        case Some(w) => Some(Set(fields, key, w))
        case None => None
      else Some(fields)
    case None => Some(fields)
  }

  // ----- Job descriptions -----

  /** The job branch on an object's fields: the two optional fields go when
      the capped object still serialises longer than the limit. */
  function TrimJob(fields: seq<(string, Json)>, stringify: Json -> string, maxLength: int): Option<seq<(string, Json)>>
  {
    match CapJobFields(fields)
    case None => None
    case Some(f3) =>
      if |stringify(JObj(f3))| > maxLength then
        Some(Delete(Delete(f3, "additionalInfo"), "companyDescription"))
      else Some(f3)
  }

  /** The description, the requirements and the benefits capped in turn. */
  function CapJobFields(fields: seq<(string, Json)>): Option<seq<(string, Json)>>
  {
    match Update(fields, "description", Cut(300))
    case None => None
    case Some(f1) => Update(Update(f1, "requirements", SliceTo(5)).value, "benefits", Cut(150))
  }

  // ----- Résumés -----

  /** The per-entry step of a `forEach`: the entry's description cut to
      `limit`, and its achievements (when asked) capped at three. Reading a
      property of `null` throws. */
  function TrimEntry(e: Json, limit: nat, achievements: bool): Option<Json>
  {
    match e
    case JNull => None
    case JObj(fs) =>
      (match Update(fs, "description", Cut(limit))
       case None => None
       case Some(f1) =>
         if achievements then
           match Update(f1, "achievements", SliceTo(3))
           case None => None
           case Some(f2) => Some(JObj(f2))
         else Some(JObj(f1)))
    case _ => Some(e)
  }

  /** Every entry trimmed; None as soon as one throws. */
  function TrimEntries(items: seq<Json>, limit: nat, achievements: bool): (r: Option<seq<Json>>)
    ensures r.Some? ==> |r.value| == |items|
  {
    if items == [] then Some([])
    else
      match TrimEntries(items[..|items| - 1], limit, achievements)
      case None => None
      case Some(init) =>
        match TrimEntry(items[|items| - 1], limit, achievements)
        case None => None
        case Some(last) => Some(init + [last])
  }

  /** `if (obj[key] && Array.isArray(obj[key]))`: the array is sliced to
      `n` entries and each kept entry is trimmed by a `forEach`. */
  function UpdateEach(fields: seq<(string, Json)>, key: string, n: nat, limit: nat, achievements: bool)
    : Option<seq<(string, Json)>>
  {
    match Get(fields, key)
    case Some(JArr(items)) =>
      (match TrimEntries(Slice(JArr(items), n).items, limit, achievements)
       case None => None
       case Some(es) => Some(Set(fields, key, JArr(es))))
    case _ => Some(fields)
  }

  /** The résumé fields deleted outright. */
  const ResumeDropped: seq<string> := ["summary", "interests", "references", "certifications", "additionalInfo"]

  function DeleteAll(fields: seq<(string, Json)>, keys: seq<string>): seq<(string, Json)>
    decreases |keys|
  {
    if keys == [] then fields else DeleteAll(Delete(fields, keys[0]), keys[1..])
  }

  /** The résumé branch on an object's fields. */
  function TrimResume(fields: seq<(string, Json)>): Option<seq<(string, Json)>>
  {
    match CapResumeFields(fields)
    case None => None
    case Some(f4) => Some(DeleteAll(f4, ResumeDropped))
  }

  /** The work experience, the education, the skills and the projects
      capped in turn. */
  function CapResumeFields(fields: seq<(string, Json)>): Option<seq<(string, Json)>>
  {
    match UpdateEach(fields, "workExperience", 3, 200, true)
    case None => None
    case Some(f1) =>
      var f3 := Update(Update(f1, "education", First).value, "skills", SliceTo(10)).value;
      UpdateEach(f3, "projects", 2, 150, false)
  }

  /** The value `truncateContent` serialises, or None when it throws. */
  function Trimmed(obj: Json, contentType: string, stringify: Json -> string, maxLength: int): (r: Option<Json>)
    ensures contentType != "job" && contentType != "resume" ==> r == Some(obj)
    ensures r.None? ==> obj.JNull? || obj.JObj?
    ensures r.Some? && !obj.JObj? ==> r.value == obj
    ensures r.Some? && obj.JObj? ==> r.value.JObj?
  {
    if contentType != "job" && contentType != "resume" then Some(obj)
    else
      match obj
      case JNull => None
      case JObj(fields) =>
        var r := if contentType == "job" then TrimJob(fields, stringify, maxLength) else TrimResume(fields);
        if r.Some? then Some(JObj(r.value)) else None
      case _ => Some(obj)
  }

  // ----- The imperative form -----

  /** The `forEach` of the résumé branch over an array's entries, in place. */
  method TrimEach(items: seq<Json>, limit: nat, achievements: bool) returns (r: Option<seq<Json>>)
    ensures r == TrimEntries(items, limit, achievements)
  {
    var done: seq<Json> := [];
    for k := 0 to |items|
      invariant TrimEntries(items[..k], limit, achievements) == Some(done)
    {
      assert items[..k + 1][..k] == items[..k];
      var e := TrimEntry(items[k], limit, achievements);
      if e.None? {
        TrimEntriesFails(items, k, limit, achievements);
        return None;
      }
      done := done + [e.value];
    }
    assert items[..|items|] == items;
    return Some(done);
  }

  /** `truncateContent(content, maxLength, contentType)`. */
  method TruncateContent(content: string, maxLength: int, contentType: string,
                         parse: string -> Option<Json>, stringify: Json -> string)
    returns (r: Option<string>)
    ensures |content| <= maxLength ==> r == Some(content)
    ensures |content| > maxLength && parse(content).None? ==> r.None?
    ensures |content| > maxLength ==>
              r == (match parse(content)
                    case None => None
                    case Some(obj) =>
                      match Trimmed(obj, contentType, stringify, maxLength)
                      case None => None
                      case Some(out) => Some(stringify(out)))
  {
    if |content| <= maxLength {
      return Some(content);
    }
    var parsed := parse(content);
    if parsed.None? {
      return None;
    }
    var obj := parsed.value;
    if contentType == "job" || contentType == "resume" {
      if obj.JNull? {
        return None;
      }
      if obj.JObj? {
        var fields := obj.fields;
        if contentType == "job" {
          var t := TrimJob(fields, stringify, maxLength);
          if t.None? {
            return None;
          }
          fields := t.value;
        } else {
          var t := ResumeInPlace(fields);
          if t.None? {
            return None;
          }
          fields := t.value;
        }
        obj := JObj(fields);
      }
    }
    return Some(stringify(obj));
  }

  /** `if (obj[key] && Array.isArray(obj[key]))`: the array is sliced to
      `n` entries and each kept entry trimmed in a `forEach`. */
  method CapField(obj: seq<(string, Json)>, key: string, n: nat, limit: nat, achievements: bool)
    returns (r: Option<seq<(string, Json)>>)
    ensures r == UpdateEach(obj, key, n, limit, achievements)
  {
    var v := Get(obj, key);
    if v.Some? && v.value.JArr? {
      var kept := TrimEach(Slice(v.value, n).items, limit, achievements);
      if kept.None? {
        return None;
      }
      return Some(Set(obj, key, JArr(kept.value)));
    }
    return Some(obj);
  }

  /** The résumé branch step by step. */
  method ResumeInPlace(fields: seq<(string, Json)>) returns (r: Option<seq<(string, Json)>>)
    ensures r == TrimResume(fields)
  {
    var work := CapField(fields, "workExperience", 3, 200, true);
    if work.None? {
      return None;
    }
    var obj := work.value;
    var education := Get(obj, "education");
    if education.Some? && Truthy(education.value) {
      obj := Set(obj, "education", FirstOnly(education.value));
    }
    assert Update(work.value, "education", First) == Some(obj);
    ghost var f2 := obj;
    var skills := Get(obj, "skills");
    if skills.Some? && Truthy(skills.value) {
      obj := Set(obj, "skills", Slice(skills.value, 10));
    }
    assert Update(f2, "skills", SliceTo(10)) == Some(obj);
    var projects := CapField(obj, "projects", 2, 150, false);
    if projects.None? {
      return None;
    }
    return Some(DeleteAll(projects.value, ResumeDropped));
  }

  /** One entry that throws makes the whole `forEach` throw. */
  lemma {:induction false} TrimEntriesFails(items: seq<Json>, k: nat, limit: nat, achievements: bool)
    requires k < |items| && TrimEntry(items[k], limit, achievements).None?
    ensures TrimEntries(items, limit, achievements).None?
  {
    if k < |items| - 1 {
      assert items[..|items| - 1][k] == items[k];
      TrimEntriesFails(items[..|items| - 1], k, limit, achievements);
    }
  }

  // ----- Properties -----

  /** A capped text is at most three characters over the limit, keeps the
      text's first `limit` characters, and capping it again changes nothing. */
  lemma CappedSpec(s: string, limit: nat)
    ensures |Capped(s, limit)| <= limit + 3
    ensures |s| <= limit ==> Capped(s, limit) == s
    ensures |s| > limit ==> (Capped(s, limit)[..limit] == s[..limit]
                             && Capped(s, limit)[limit..] == Ellipsis)
    ensures Capped(Capped(s, limit), limit) == Capped(s, limit)
  {
    if |s| > limit {
      var t := s[..limit] + Ellipsis;
      assert t[..limit] == s[..limit];
    }
  }

  /** After an update, the updated field holds what the step made of it,
      when it was present and truthy, and is otherwise as it was. */
  lemma UpdateKey(fields: seq<(string, Json)>, key: string, step: Step)
    requires Update(fields, key, step).Some?
    ensures Get(Update(fields, key, step).value, key)
            == (match Get(fields, key)
                case Some(v) => if Truthy(v) then Apply(step, v) else Some(v)
                case None => None)
  {
    var g := Get(fields, key);
    if g.Some? && Truthy(g.value) {
      GetSet(fields, key, Apply(step, g.value).value, key);
    }
  }

  /** An update leaves every other field as it was. */
  lemma UpdateOther(fields: seq<(string, Json)>, key: string, step: Step, other: string)
    requires Update(fields, key, step).Some? && other != key
    ensures Get(Update(fields, key, step).value, other) == Get(fields, other)
  {
    var g := Get(fields, key);
    if g.Some? && Truthy(g.value) {
      GetSet(fields, key, Apply(step, g.value).value, other);
    }
  }

  /** Deleting a list of keys removes exactly those keys. */
  lemma {:induction false} DeleteAllGet(fields: seq<(string, Json)>, keys: seq<string>, k: string)
    ensures Get(DeleteAll(fields, keys), k) == if k in keys then None else Get(fields, k)
    decreases |keys|
  {
    if keys != [] {
      DeleteAllGet(Delete(fields, keys[0]), keys[1..], k);
      GetDelete(fields, keys[0], k);
      if k == keys[0] && k in keys[1..] {
      }
    }
  }

  /** A string description is capped at 300 characters. */
  lemma JobDescriptionCapped(fields: seq<(string, Json)>)
    requires CapJobFields(fields).Some?
    ensures var d := Get(fields, "description");
            d.Some? && d.value.JStr? ==>
              Get(CapJobFields(fields).value, "description") == Some(JStr(Capped(d.value.s, 300)))
  {
    var f1 := Update(fields, "description", Cut(300)).value;
    var f2 := Update(f1, "requirements", SliceTo(5)).value;
    UpdateKey(fields, "description", Cut(300));
    UpdateOther(f1, "requirements", SliceTo(5), "description");
    UpdateOther(f2, "benefits", Cut(150), "description");
  }

  /** An array of requirements keeps its first five entries. */
  lemma JobRequirementsCapped(fields: seq<(string, Json)>)
    requires CapJobFields(fields).Some?
    ensures var q := Get(fields, "requirements");
            q.Some? && q.value.JArr? ==>
              Get(CapJobFields(fields).value, "requirements")
              == Some(JArr(if |q.value.items| > 5 then q.value.items[..5] else q.value.items))
  {
    var f1 := Update(fields, "description", Cut(300)).value;
    var f2 := Update(f1, "requirements", SliceTo(5)).value;
    UpdateOther(fields, "description", Cut(300), "requirements");
    UpdateKey(f1, "requirements", SliceTo(5));
    UpdateOther(f2, "benefits", Cut(150), "requirements");
  }

  /** String benefits are capped at 150 characters. */
  lemma JobBenefitsCapped(fields: seq<(string, Json)>)
    requires CapJobFields(fields).Some?
    ensures var b := Get(fields, "benefits");
            b.Some? && b.value.JStr? ==>
              Get(CapJobFields(fields).value, "benefits") == Some(JStr(Capped(b.value.s, 150)))
  {
    var f1 := Update(fields, "description", Cut(300)).value;
    var f2 := Update(f1, "requirements", SliceTo(5)).value;
    UpdateOther(fields, "description", Cut(300), "benefits");
    UpdateOther(f1, "requirements", SliceTo(5), "benefits");
    UpdateKey(f2, "benefits", Cut(150));
  }

  /** The caps leave every other field, and a capped field holding neither
      a string nor an array, as it was. */
  lemma JobOthersKept(fields: seq<(string, Json)>, k: string)
    requires CapJobFields(fields).Some?
    ensures k != "description" && k != "requirements" && k != "benefits" ==>
              Get(CapJobFields(fields).value, k) == Get(fields, k)
    ensures Get(fields, k).Some? && !Get(fields, k).value.JStr? && !Get(fields, k).value.JArr? ==>
              Get(CapJobFields(fields).value, k) == Get(fields, k)
  {
    var f1 := Update(fields, "description", Cut(300)).value;
    var f2 := Update(f1, "requirements", SliceTo(5)).value;
    if k != "description" {
      UpdateOther(fields, "description", Cut(300), k);
    } else {
      UpdateKey(fields, "description", Cut(300));
    }
    if k != "requirements" {
      UpdateOther(f1, "requirements", SliceTo(5), k);
    } else {
      UpdateKey(f1, "requirements", SliceTo(5));
    }
    if k != "benefits" {
      UpdateOther(f2, "benefits", Cut(150), k);
    } else {
      UpdateKey(f2, "benefits", Cut(150));
    }
  }

  /** The job branch: the three caps, then the two optional fields deleted
      exactly when the capped object still serialises longer than the
      limit; nothing else changes. */
  lemma JobCaps(fields: seq<(string, Json)>, stringify: Json -> string, maxLength: int)
    requires TrimJob(fields, stringify, maxLength).Some?
    ensures CapJobFields(fields).Some?
    ensures var out := TrimJob(fields, stringify, maxLength).value;
            forall k | k !in {"additionalInfo", "companyDescription"} :: Get(out, k) == Get(CapJobFields(fields).value, k)
    ensures var out := TrimJob(fields, stringify, maxLength).value;
            |stringify(JObj(CapJobFields(fields).value))| > maxLength ==>
              Get(out, "additionalInfo") == None && Get(out, "companyDescription") == None
    ensures var out := TrimJob(fields, stringify, maxLength).value;
            |stringify(JObj(CapJobFields(fields).value))| <= maxLength ==>
              && out == CapJobFields(fields).value
              && Get(out, "additionalInfo") == Get(fields, "additionalInfo")
              && Get(out, "companyDescription") == Get(fields, "companyDescription")
  {
    var f3 := CapJobFields(fields).value;
    if |stringify(JObj(f3))| > maxLength {
      var out := Delete(Delete(f3, "additionalInfo"), "companyDescription");
      assert TrimJob(fields, stringify, maxLength).value == out;
      forall k ensures Get(out, k) == if k in {"additionalInfo", "companyDescription"} then None else Get(f3, k) {
        DeleteBoth(f3, k);
      }
      DeleteBoth(f3, "additionalInfo");
      DeleteBoth(f3, "companyDescription");
    } else {
      assert TrimJob(fields, stringify, maxLength).value == f3;
      JobOthersKept(fields, "additionalInfo");
      JobOthersKept(fields, "companyDescription");
    }
  }

  lemma DeleteBoth(f3: seq<(string, Json)>, k: string)
    ensures Get(Delete(Delete(f3, "additionalInfo"), "companyDescription"), k)
            == if k in {"additionalInfo", "companyDescription"} then None else Get(f3, k)
  {
    GetDelete(f3, "additionalInfo", k);
    GetDelete(Delete(f3, "additionalInfo"), "companyDescription", k);
  }

  /** The job branch throws exactly when the description or the benefits
      is an array or an object longer than its cap (neither has
      `substring`). */
  lemma JobThrows(fields: seq<(string, Json)>, stringify: Json -> string, maxLength: int)
    ensures TrimJob(fields, stringify, maxLength).None? <==>
              || (Get(fields, "description").Some? && TooLong(Get(fields, "description").value, 300))
              || (Get(fields, "benefits").Some? && TooLong(Get(fields, "benefits").value, 150))
  {
    var u1 := Update(fields, "description", Cut(300));
    if u1.Some? {
      UpdateOther(fields, "description", Cut(300), "benefits");
      UpdateOther(u1.value, "requirements", SliceTo(5), "benefits");
    }
  }

  // ----- The résumé branch -----

  /** Every entry is trimmed where it stands, and the `forEach` throws
      exactly when one entry does. */
  lemma {:induction false} TrimEntriesSpec(items: seq<Json>, limit: nat, achievements: bool)
    ensures TrimEntries(items, limit, achievements).Some? <==>
              forall i | 0 <= i < |items| :: TrimEntry(items[i], limit, achievements).Some?
    ensures TrimEntries(items, limit, achievements).Some? ==>
              forall i | 0 <= i < |items| ::
                Some(TrimEntries(items, limit, achievements).value[i]) == TrimEntry(items[i], limit, achievements)
  {
    if items != [] {
      var init := items[..|items| - 1];
      TrimEntriesSpec(init, limit, achievements);
      assert forall i | 0 <= i < |init| :: init[i] == items[i];
      if !TrimEntry(items[|items| - 1], limit, achievements).Some? {
        TrimEntriesFails(items, |items| - 1, limit, achievements);
      }
    }
  }

  /** One entry of the work experience or the projects: `null` throws, as
      does a description that is an array or object longer than the cap; an object
      has its string description capped and, for work experience, an
      array of achievements cut to three; anything else is kept. */
  lemma TrimEntrySpec(e: Json, limit: nat, achievements: bool)
    ensures TrimEntry(e, limit, achievements).None? <==>
              || e == JNull
              || (&& e.JObj? && Get(e.fields, "description").Some?
                  && TooLong(Get(e.fields, "description").value, limit))
    ensures !e.JObj? && e != JNull ==> TrimEntry(e, limit, achievements) == Some(e)
    ensures e.JObj? && TrimEntry(e, limit, achievements).Some? ==>
              var out := TrimEntry(e, limit, achievements).value;
              var d := Get(e.fields, "description");
              && out.JObj?
              && (d.Some? && d.value.JStr? ==> Get(out.fields, "description") == Some(JStr(Capped(d.value.s, limit))))
              && (var a := Get(e.fields, "achievements");
                  achievements && a.Some? && a.value.JArr? ==>
                    Get(out.fields, "achievements")
                    == Some(JArr(if |a.value.items| > 3 then a.value.items[..3] else a.value.items)))
  {
    if e.JObj? && TrimEntry(e, limit, achievements).Some? {
      var f1 := Update(e.fields, "description", Cut(limit)).value;
      UpdateKey(e.fields, "description", Cut(limit));
      if achievements {
        UpdateOther(f1, "achievements", SliceTo(3), "description");
        UpdateOther(e.fields, "description", Cut(limit), "achievements");
        UpdateKey(f1, "achievements", SliceTo(3));
      }
    }
  }

  /** The entry array under `key` keeps its first `n` entries, each trimmed. */
  lemma UpdateEachKey(fields: seq<(string, Json)>, key: string, n: nat, limit: nat, achievements: bool)
    requires UpdateEach(fields, key, n, limit, achievements).Some?
    ensures var g := Get(fields, key);
            g.Some? && g.value.JArr? ==>
              var xs := g.value.items;
              exists ys: seq<Json> ::
                && Get(UpdateEach(fields, key, n, limit, achievements).value, key) == Some(JArr(ys))
                && |ys| == (if |xs| > n then n else |xs|)
                && forall i | 0 <= i < |ys| :: Some(ys[i]) == TrimEntry(xs[i], limit, achievements)
    ensures var g := Get(fields, key);
            !(g.Some? && g.value.JArr?) ==> UpdateEach(fields, key, n, limit, achievements).value == fields
  {
    var g := Get(fields, key);
    if g.Some? && g.value.JArr? {
      var kept := Slice(g.value, n).items;
      TrimEntriesSpec(kept, limit, achievements);
      var ys := TrimEntries(kept, limit, achievements).value;
      GetSet(fields, key, JArr(ys), key);
      assert forall i | 0 <= i < |ys| :: kept[i] == g.value.items[i];
    }
  }

  lemma UpdateEachOther(fields: seq<(string, Json)>, key: string, n: nat, limit: nat, achievements: bool, other: string)
    requires UpdateEach(fields, key, n, limit, achievements).Some? && other != key
    ensures Get(UpdateEach(fields, key, n, limit, achievements).value, other) == Get(fields, other)
  {
    var g := Get(fields, key);
    if g.Some? && g.value.JArr? {
      var ys := TrimEntries(Slice(g.value, n).items, limit, achievements).value;
      GetSet(fields, key, JArr(ys), other);
    }
  }

  /** The fields of the résumé the caps touch. */
  const ResumeCappedKeys: seq<string> := ["workExperience", "education", "skills", "projects"]

  /** How each field of the résumé fares in the caps: `key` names the one
      looked at, and the three other capping steps leave it alone. */
  lemma ResumeStepsOther(fields: seq<(string, Json)>, k: string)
    requires CapResumeFields(fields).Some?
    ensures var f1 := UpdateEach(fields, "workExperience", 3, 200, true).value;
            var f2 := Update(f1, "education", First).value;
            var f3 := Update(f2, "skills", SliceTo(10)).value;
            var f4 := CapResumeFields(fields).value;
            && (k != "workExperience" ==> Get(f1, k) == Get(fields, k))
            && (k != "education" ==> Get(f2, k) == Get(f1, k))
            && (k != "skills" ==> Get(f3, k) == Get(f2, k))
            && (k != "projects" ==> Get(f4, k) == Get(f3, k))
  {
    var f1 := UpdateEach(fields, "workExperience", 3, 200, true).value;
    var f2 := Update(f1, "education", First).value;
    var f3 := Update(f2, "skills", SliceTo(10)).value;
    if k != "workExperience" { UpdateEachOther(fields, "workExperience", 3, 200, true, k); }
    if k != "education" { UpdateOther(f1, "education", First, k); }
    if k != "skills" { UpdateOther(f2, "skills", SliceTo(10), k); }
    if k != "projects" { UpdateEachOther(f3, "projects", 2, 150, false, k); }
  }

  /** At most three work experience entries remain, each trimmed. */
  lemma ResumeWorkCapped(fields: seq<(string, Json)>)
    requires TrimResume(fields).Some?
    ensures var g := Get(fields, "workExperience");
            g.Some? && g.value.JArr? ==>
              exists ys: seq<Json> ::
                && Get(TrimResume(fields).value, "workExperience") == Some(JArr(ys))
                && |ys| == (if |g.value.items| > 3 then 3 else |g.value.items|)
                && forall i | 0 <= i < |ys| :: Some(ys[i]) == TrimEntry(g.value.items[i], 200, true)
  {
    UpdateEachKey(fields, "workExperience", 3, 200, true);
    ResumeStepsOther(fields, "workExperience");
    DeleteAllGet(CapResumeFields(fields).value, ResumeDropped, "workExperience");
  }

  /** An array of education entries is reduced to its first element (a
      `null` when it was empty). */
  lemma ResumeEducationFirst(fields: seq<(string, Json)>)
    requires TrimResume(fields).Some?
    ensures var g := Get(fields, "education");
            g.Some? && g.value.JArr? ==>
              Get(TrimResume(fields).value, "education")
              == Some(JArr([if g.value.items == [] then JNull else g.value.items[0]]))
  {
    var f1 := UpdateEach(fields, "workExperience", 3, 200, true).value;
    ResumeStepsOther(fields, "education");
    UpdateKey(f1, "education", First);
    DeleteAllGet(CapResumeFields(fields).value, ResumeDropped, "education");
  }

  /** An array of skills keeps its first ten entries. */
  lemma ResumeSkillsCapped(fields: seq<(string, Json)>)
    requires TrimResume(fields).Some?
    ensures var g := Get(fields, "skills");
            g.Some? && g.value.JArr? ==>
              Get(TrimResume(fields).value, "skills")
              == Some(JArr(if |g.value.items| > 10 then g.value.items[..10] else g.value.items))
  {
    var f1 := UpdateEach(fields, "workExperience", 3, 200, true).value;
    var f2 := Update(f1, "education", First).value;
    ResumeStepsOther(fields, "skills");
    UpdateKey(f2, "skills", SliceTo(10));
    DeleteAllGet(CapResumeFields(fields).value, ResumeDropped, "skills");
  }

  /** At most two projects remain, each trimmed. */
  lemma ResumeProjectsCapped(fields: seq<(string, Json)>)
    requires TrimResume(fields).Some?
    ensures var g := Get(fields, "projects");
            g.Some? && g.value.JArr? ==>
              exists ys: seq<Json> ::
                && Get(TrimResume(fields).value, "projects") == Some(JArr(ys))
                && |ys| == (if |g.value.items| > 2 then 2 else |g.value.items|)
                && forall i | 0 <= i < |ys| :: Some(ys[i]) == TrimEntry(g.value.items[i], 150, false)
  {
    var f1 := UpdateEach(fields, "workExperience", 3, 200, true).value;
    var f2 := Update(f1, "education", First).value;
    var f3 := Update(f2, "skills", SliceTo(10)).value;
    ResumeStepsOther(fields, "projects");
    UpdateEachKey(f3, "projects", 2, 150, false);
    DeleteAllGet(CapResumeFields(fields).value, ResumeDropped, "projects");
  }

  /** The five low-priority fields are gone, and every field neither capped
      nor deleted is left as it was. */
  lemma ResumeDroppedAndKept(fields: seq<(string, Json)>, k: string)
    requires TrimResume(fields).Some?
    ensures k in ResumeDropped ==> Get(TrimResume(fields).value, k) == None
    ensures k !in ResumeDropped && k !in ResumeCappedKeys ==> Get(TrimResume(fields).value, k) == Get(fields, k)
  {
    ResumeStepsOther(fields, k);
    DeleteAllGet(CapResumeFields(fields).value, ResumeDropped, k);
  }

  /** Some kept entry of the array under `key` throws. */
  predicate EntryThrows(fields: seq<(string, Json)>, key: string, n: nat, limit: nat, achievements: bool)
  {
    var g := Get(fields, key);
    && g.Some? && g.value.JArr?
    && exists i | 0 <= i < |g.value.items| && i < n :: TrimEntry(g.value.items[i], limit, achievements).None?
  }

  lemma UpdateEachThrows(fields: seq<(string, Json)>, key: string, n: nat, limit: nat, achievements: bool)
    ensures UpdateEach(fields, key, n, limit, achievements).None? <==> EntryThrows(fields, key, n, limit, achievements)
  {
    var g := Get(fields, key);
    if g.Some? && g.value.JArr? {
      var kept := Slice(g.value, n).items;
      TrimEntriesSpec(kept, limit, achievements);
      assert forall i | 0 <= i < |kept| :: kept[i] == g.value.items[i];
    }
  }

  /** The résumé branch throws exactly when one of the kept work experience
      entries or projects does. */
  lemma ResumeThrows(fields: seq<(string, Json)>)
    ensures TrimResume(fields).None? <==>
              EntryThrows(fields, "workExperience", 3, 200, true) || EntryThrows(fields, "projects", 2, 150, false)
  {
    UpdateEachThrows(fields, "workExperience", 3, 200, true);
    var u1 := UpdateEach(fields, "workExperience", 3, 200, true);
    if u1.Some? {
      var f2 := Update(u1.value, "education", First).value;
      var f3 := Update(f2, "skills", SliceTo(10)).value;
      UpdateEachOther(fields, "workExperience", 3, 200, true, "projects");
      UpdateOther(u1.value, "education", First, "projects");
      UpdateOther(f2, "skills", SliceTo(10), "projects");
      UpdateEachThrows(f3, "projects", 2, 150, false);
    }
  }
}
