/** The editor's in-memory list of templates and its three edits: create, update by id and
    delete by id. */
module TemplateList {

  /** A style preset. Nothing makes ids unique. */
  datatype Template = Template(id: string, name: string, prompt: string, thumbnail: string)

  /** `[newTemplate, ...templates]`. */
  function Create(templates: seq<Template>, t: Template): (r: seq<Template>)
    ensures |r| == |templates| + 1 && r[0] == t && r[1..] == templates
  {
    [t] + templates
  }

  /** Creating a template whose id is already in the list keeps both. */
  lemma CreateAllowsDuplicateIds(templates: seq<Template>, t: Template, i: nat)
    requires i < |templates| && templates[i].id == t.id
    ensures var r := Create(templates, t); r[0].id == r[i + 1].id && 0 != i + 1
  {
  }

  /** `templates.map(t => t.id === u.id ? u : t)`. */
  function Update(templates: seq<Template>, u: Template): (r: seq<Template>)
    ensures |r| == |templates|
    ensures forall i :: 0 <= i < |r| ==> r[i] == if templates[i].id == u.id then u else templates[i]
  {
    if templates == [] then []
    else [if templates[0].id == u.id then u else templates[0]] + Update(templates[1..], u)
  }

  /** Updating with an id nobody has changes nothing. */
  lemma UpdateUnknownId(templates: seq<Template>, u: Template)
    requires forall i :: 0 <= i < |templates| ==> templates[i].id != u.id
    ensures Update(templates, u) == templates
  {
  }

  /** Updating twice with the same template is updating once. */
  lemma UpdateIdempotent(templates: seq<Template>, u: Template)
    ensures Update(Update(templates, u), u) == Update(templates, u)
  {
  }

  /** `templates.filter(t => t.id !== id)`. */
  function Delete(templates: seq<Template>, id: string): (r: seq<Template>)
    ensures |r| <= |templates|
  {
    if templates == [] then []
    else (if templates[0].id != id then [templates[0]] else []) + Delete(templates[1..], id)
  }

  /** Deletion keeps exactly the templates whose id differs. */
  lemma {:induction false} DeleteMembers(templates: seq<Template>, id: string)
    ensures forall t :: t in Delete(templates, id) <==> t in templates && t.id != id
  {
    if templates != [] {
      DeleteMembers(templates[1..], id);
      assert templates == [templates[0]] + templates[1..];
    }
  }

  /** Deletion keeps order: deleting from a concatenation deletes from each part. */
  lemma {:induction false} DeleteAppend(a: seq<Template>, b: seq<Template>, id: string)
    ensures Delete(a + b, id) == Delete(a, id) + Delete(b, id)
  {
    if a == [] {
      assert a + b == b;
    } else {
      var head := if a[0].id != id then [a[0]] else [];
      assert (a + b)[0] == a[0];
      assert (a + b)[1..] == a[1..] + b;
      DeleteAppend(a[1..], b, id);
      calc {
        Delete(a + b, id);
        head + Delete(a[1..] + b, id);
        head + (Delete(a[1..], id) + Delete(b, id));
        (head + Delete(a[1..], id)) + Delete(b, id);
        Delete(a, id) + Delete(b, id);
      }
    }
  }

  /** Deleting an id nobody has changes nothing. */
  lemma {:induction false} DeleteUnknownId(templates: seq<Template>, id: string)
    requires forall i :: 0 <= i < |templates| ==> templates[i].id != id
    ensures Delete(templates, id) == templates
  {
    if templates != [] {
      DeleteUnknownId(templates[1..], id);
    }
  }

  /** Deleting the same id twice is deleting it once. */
  lemma DeleteIdempotent(templates: seq<Template>, id: string)
    ensures Delete(Delete(templates, id), id) == Delete(templates, id)
  {
    var r := Delete(templates, id);
    DeleteMembers(templates, id);
    forall i | 0 <= i < |r| ensures r[i].id != id {
      assert r[i] in r;
    }
    DeleteUnknownId(r, id);
  }
}
