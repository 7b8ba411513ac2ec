/**
 * Merging the site's text content, already parsed, into the page. Every write
 * goes to an element looked up by id and is skipped when the element is
 * missing; falsy values (absent or the empty string) are skipped too, and the
 * two titles whose markup carries highlighting are never overwritten.
 */
module Content {
  import opened Wrappers

  /** A value is truthy in JavaScript when present and not the empty string. */
  predicate Truthy(s: Option<string>)
  {
    s.Some? && s.value != ""
  }

  datatype Hero = Hero(title: Option<string>, kicker: Option<string>)

  /** One entry of `slides`; `steps` and `bullets` are lists (an empty list is truthy). */
  datatype SectionData = SectionData(
    title: Option<string>, body: Option<string>, question: Option<string>,
    steps: Option<seq<string>>, bullets: Option<seq<string>>, cta: Option<string>)

  /** The parsed content file; a section missing from `slides` is missing from `sections`. */
  datatype Data = Data(
    siteTitle: Option<string>, hero: Option<Hero>,
    sections: map<string, SectionData>, hfEmbedUrl: Option<string>)

  /** What an element holds after a write: text (`textContent`) or markup (`innerHTML`). */
  datatype Written = Text(s: string) | Html(s: string)

  type Write = (string, Written)

  /** The titles left as they are in the markup. */
  const Protected: set<string> := {"hero-title", "aiq-title"}

  /** The sections merged, in order. */
  const Sections: seq<string> := ["beer-game-info", "week", "aiq", "try", "credits"]

  // ---------------------------------------------------------------------------
  // Writes by id

  /** The contents after the writes, in order; a write to a missing element is skipped. */
  function Assign(contents: map<string, Written>, ws: seq<Write>): (r: map<string, Written>)
    ensures r.Keys == contents.Keys
    decreases |ws|
  {
    if ws == [] then contents
    else
      var before := Assign(contents, ws[..|ws| - 1]);
      var w := ws[|ws| - 1];
      if w.0 in before then before[w.0 := w.1] else before
  }

  /** The value of the last write to `id`, if any. */
  function LastAssigned(ws: seq<Write>, id: string): Option<Written>
    decreases |ws|
  {
    if ws == [] then None
    else if ws[|ws| - 1].0 == id then Some(ws[|ws| - 1].1)
    else LastAssigned(ws[..|ws| - 1], id)
  }

  /** Each element ends with the last value written to it, or keeps its own. */
  lemma {:induction false} AssignLast(contents: map<string, Written>, ws: seq<Write>, id: string)
    requires id in contents
    ensures Assign(contents, ws)[id] ==
              match LastAssigned(ws, id)
              case Some(w) => w
              case None => contents[id]
    decreases |ws|
  {
    if ws != [] {
      AssignLast(contents, ws[..|ws| - 1], id);
    }
  }

  lemma {:induction false} AssignAppend(contents: map<string, Written>, a: seq<Write>, b: seq<Write>)
    ensures Assign(contents, a + b) == Assign(Assign(contents, a), b)
    decreases |b|
  {
    if b == [] {
      assert a + b == a;
    } else {
      assert (a + b)[..|a + b| - 1] == a + b[..|b| - 1];
      AssignAppend(contents, a, b[..|b| - 1]);
    }
  }

  /** Writing the same values again changes nothing. */
  lemma AssignIdempotent(contents: map<string, Written>, ws: seq<Write>)
    ensures Assign(Assign(contents, ws), ws) == Assign(contents, ws)
  {
    var once := Assign(contents, ws);
    forall id | id in once
      ensures Assign(once, ws)[id] == once[id]
    {
      AssignLast(contents, ws, id);
      AssignLast(once, ws, id);
    }
  }

  /** An element no write names keeps its content. */
  lemma AssignUnnamed(contents: map<string, Written>, ws: seq<Write>, id: string)
    requires id in contents
    requires forall k :: 0 <= k < |ws| ==> ws[k].0 != id
    ensures Assign(contents, ws)[id] == contents[id]
  {
    AssignLast(contents, ws, id);
    LastAssignedUnnamed(ws, id);
  }

  lemma {:induction false} LastAssignedUnnamed(ws: seq<Write>, id: string)
    requires forall k :: 0 <= k < |ws| ==> ws[k].0 != id
    ensures LastAssigned(ws, id) == None
    decreases |ws|
  {
    if ws != [] {
      LastAssignedUnnamed(ws[..|ws| - 1], id);
    }
  }

  // ---------------------------------------------------------------------------
  // The writes each function makes

  /** `updateElement(id, content)` */
  function ElementWrites(id: string, content: Option<string>): seq<Write>
  {
    if Truthy(content) && id !in Protected then [(id, Text(content.value))] else []
  }

  /** `bullets.map(b => "<li>" + b + "</li>").join("")` */
  function BulletsHtml(bullets: seq<string>): string
    decreases |bullets|
  {
    if bullets == [] then ""
    else BulletsHtml(bullets[..|bullets| - 1]) + "<li>" + bullets[|bullets| - 1] + "</li>"
  }

  /** The bullet markup of a list is the markup of its parts, one item after another. */
  lemma {:induction false} BulletsHtmlAppend(a: seq<string>, b: seq<string>)
    ensures BulletsHtml(a + b) == BulletsHtml(a) + BulletsHtml(b)
    decreases |b|
  {
    if b == [] {
      assert a + b == a;
    } else {
      assert (a + b)[..|a + b| - 1] == a + b[..|b| - 1];
      BulletsHtmlAppend(a, b[..|b| - 1]);
    }
  }

  lemma BulletsHtmlSingle(b: string)
    ensures BulletsHtml([b]) == "<li>" + b + "</li>"
  {
    assert [b][..0] == [];
  }

  /** `updateBullets(id, bullets)` */
  function BulletWrites(id: string, bullets: Option<seq<string>>): seq<Write>
  {
    if bullets.Some? then [(id, Html(BulletsHtml(bullets.value)))] else []
  }

  function TitleWrites(name: string, d: SectionData): seq<Write>
  {
    if Truthy(d.title) then ElementWrites(name + "-title", d.title) else []
  }

  /** The body is markup in the beer-game-info section and text elsewhere. */
  function BodyWrites(name: string, d: SectionData): seq<Write>
  {
    if Truthy(d.body) then [(name + "-body", if name == "beer-game-info" then Html(d.body.value) else Text(d.body.value))]
    else []
  }

  function QuestionWrites(name: string, d: SectionData): seq<Write>
  {
    if Truthy(d.question) then [(name + "-question", Html(d.question.value))] else []
  }

  function SpecialWrites(name: string, d: SectionData): seq<Write>
  {
    if name == "aiq" then BulletWrites("aiq-bullets", d.bullets)
    else if name == "try" then ElementWrites("try-cta", d.cta)
    else []
  }

  /** `updateSection(name, d)`, apart from the week's step labels. */
  function SectionWrites(name: string, d: SectionData): seq<Write>
  {
    TitleWrites(name, d) + BodyWrites(name, d) + QuestionWrites(name, d) + SpecialWrites(name, d)
  }

  /** The sections of `names` present in the data, in order. */
  function SectionsWrites(data: Data, names: seq<string>): seq<Write>
    decreases |names|
  {
    if names == [] then []
    else
      var n := |names| - 1;
      SectionsWrites(data, names[..n])
      + (if names[n] in data.sections then SectionWrites(names[n], data.sections[names[n]]) else [])
  }

  /** One more name of a list adds that section's writes. */
  lemma SectionsWritesSnoc(data: Data, names: seq<string>, k: int)
    requires 0 <= k < |names|
    ensures SectionsWrites(data, names[..k + 1]) ==
              SectionsWrites(data, names[..k])
              + (if names[k] in data.sections then SectionWrites(names[k], data.sections[names[k]]) else [])
  {
    assert names[..k + 1][..k] == names[..k];
  }

  function HeroWrites(data: Data): seq<Write>
  {
    if data.hero.Some? then ElementWrites("hero-title", data.hero.value.title) + ElementWrites("hero-kicker", data.hero.value.kicker)
    else []
  }

  /** Every element write `populateContent(data)` makes. */
  function ContentWrites(data: Data): seq<Write>
  {
    HeroWrites(data) + SectionsWrites(data, Sections)
  }

  /** `updateWeekSteps(steps)`: label `i` takes step `i` where both exist. */
  function Relabel(labels: seq<string>, steps: seq<string>): (r: seq<string>)
    ensures |r| == |labels|
  {
    seq(|labels|, i requires 0 <= i < |labels| => if i < |steps| then steps[i] else labels[i])
  }

  function WeekSteps(data: Data): Option<seq<string>>
  {
    if "week" in data.sections then data.sections["week"].steps else None
  }

  // ---------------------------------------------------------------------------
  // What the merge promises

  /** The section a `<section>-body` id belongs to. */
  function BodyOwner(id: string): Option<string>
  {
    if |id| >= 5 && id[|id| - 5..] == "-body" then Some(id[..|id| - 5]) else None
  }

  lemma BodyOwnerOf(name: string)
    ensures BodyOwner(name + "-body") == Some(name)
  {
    var id := name + "-body";
    assert id[|id| - 5..] == "-body";
    assert id[..|id| - 5] == name;
  }

  /** A write of `updateSection(name, d)` never goes to a protected title, and
      goes to a body only when it is the section's own and `d` gives one. */
  lemma SectionWriteSafe(name: string, d: SectionData, k: int)
    requires 0 <= k < |SectionWrites(name, d)|
    ensures var id := SectionWrites(name, d)[k].0;
            && id !in Protected
            && (BodyOwner(id).Some? ==> BodyOwner(id).value == name && Truthy(d.body))
  {
    var ws := SectionWrites(name, d);
    var t := TitleWrites(name, d);
    var b := BodyWrites(name, d);
    var q := QuestionWrites(name, d);
    var x := SpecialWrites(name, d);
    assert ws == t + b + q + x;
    if k < |t| {
      assert ws[k] == t[k];
      TitleWriteSafe(name, d, k);
    } else if k < |t| + |b| {
      assert ws[k] == b[k - |t|];
      BodyOwnerOf(name);
    } else if k < |t| + |b| + |q| {
      assert ws[k] == q[k - |t| - |b|];
      QuestionWriteSafe(name, d);
    } else {
      assert ws[k] == x[k - |t| - |b| - |q|];
    }
  }

  lemma TitleWriteSafe(name: string, d: SectionData, k: int)
    requires 0 <= k < |TitleWrites(name, d)|
    ensures TitleWrites(name, d)[k].0 !in Protected && BodyOwner(TitleWrites(name, d)[k].0).None?
  {
    var id := TitleWrites(name, d)[k].0;
    assert id == name + "-title";
    assert id[|id| - 5..] == "title";
  }

  lemma QuestionWriteSafe(name: string, d: SectionData)
    requires QuestionWrites(name, d) != []
    ensures QuestionWrites(name, d)[0].0 !in Protected && BodyOwner(QuestionWrites(name, d)[0].0).None?
  {
    var id := QuestionWrites(name, d)[0].0;
    assert id == name + "-question";
    assert id[|id| - 5..] == "stion";
  }

  /** The same for the sections of `names` present in the data. */
  lemma {:induction false} SectionsWriteSafe(data: Data, names: seq<string>, k: int)
    requires 0 <= k < |SectionsWrites(data, names)|
    ensures var id := SectionsWrites(data, names)[k].0;
            && id !in Protected
            && (BodyOwner(id).Some? ==>
                  var owner := BodyOwner(id).value;
                  owner in names && owner in data.sections && Truthy(data.sections[owner].body))
    decreases |names|
  {
    var n := |names| - 1;
    var front := SectionsWrites(data, names[..n]);
    if k < |front| {
      SectionsWriteSafe(data, names[..n], k);
      assert SectionsWrites(data, names)[k] == front[k];
      var id := front[k].0;
      if BodyOwner(id).Some? {
        assert BodyOwner(id).value in names[..n];
      }
    } else {
      SectionWriteSafe(names[n], data.sections[names[n]], k - |front|);
    }
  }

  /** The highlighted titles are never written: the protection applies to the
      hero's title and to the AIQ section's title alike. */
  lemma ProtectedNeverWritten(data: Data, k: int)
    requires 0 <= k < |ContentWrites(data)|
    ensures ContentWrites(data)[k].0 !in Protected
  {
    var hero := HeroWrites(data);
    if k >= |hero| {
      SectionsWriteSafe(data, Sections, k - |hero|);
      assert ContentWrites(data)[k] == SectionsWrites(data, Sections)[k - |hero|];
    }
  }

  /** A section body the data does not give (the section is missing, or its
      body is absent or empty) keeps the page's fallback text. */
  lemma BodyFallbackKept(contents: map<string, Written>, data: Data, name: string)
    requires name + "-body" in contents
    requires name !in data.sections || !Truthy(data.sections[name].body)
    ensures Assign(contents, ContentWrites(data))[name + "-body"] == contents[name + "-body"]
  {
    var id := name + "-body";
    var ws := ContentWrites(data);
    var hero := HeroWrites(data);
    BodyOwnerOf(name);
    forall k | 0 <= k < |ws|
      ensures ws[k].0 != id
    {
      if k >= |hero| {
        SectionsWriteSafe(data, Sections, k - |hero|);
        assert ws[k] == SectionsWrites(data, Sections)[k - |hero|];
      } else {
        assert ws[k].0 == "hero-kicker";
      }
    }
    AssignUnnamed(contents, ws, id);
  }

  // ---------------------------------------------------------------------------
  // Which elements the merge writes

  /** Some write of `ws` goes to `id`. */
  predicate Targeted(ws: seq<Write>, id: string)
  {
    exists k :: 0 <= k < |ws| && ws[k].0 == id
  }

  /** The section data gives a value for element `id`: a truthy title (unless
      highlighted), body or question of the section, the AIQ bullets, or the
      call to action of the "try" section. */
  predicate SectionGives(name: string, d: SectionData, id: string)
  {
    || (id == name + "-title" && Truthy(d.title) && id !in Protected)
    || (id == name + "-body" && Truthy(d.body))
    || (id == name + "-question" && Truthy(d.question))
    || (name == "aiq" && id == "aiq-bullets" && d.bullets.Some?)
    || (name == "try" && id == "try-cta" && Truthy(d.cta))
  }

  /** The content gives a value for element `id`: the hero's kicker, or a
      field of one of the merged sections. */
  predicate Gives(data: Data, id: string)
  {
    || (id == "hero-kicker" && data.hero.Some? && Truthy(data.hero.value.kicker))
    || exists k :: 0 <= k < |Sections| && Sections[k] in data.sections
                   && SectionGives(Sections[k], data.sections[Sections[k]], id)
  }

  lemma TargetedAppend(a: seq<Write>, b: seq<Write>, id: string)
    ensures Targeted(a + b, id) <==> Targeted(a, id) || Targeted(b, id)
  {
    if Targeted(a + b, id) {
      var k :| 0 <= k < |a + b| && (a + b)[k].0 == id;
      if k >= |a| {
        assert b[k - |a|].0 == id;
      } else {
        assert a[k].0 == id;
      }
    }
    if Targeted(a, id) {
      var k :| 0 <= k < |a| && a[k].0 == id;
      assert (a + b)[k].0 == id;
    }
    if Targeted(b, id) {
      var k :| 0 <= k < |b| && b[k].0 == id;
      assert (a + b)[|a| + k].0 == id;
    }
  }

  /** At most one write: it goes to `id`, or nothing does. */
  lemma TargetedOne(ws: seq<Write>, id: string)
    requires |ws| <= 1
    ensures Targeted(ws, id) <==> |ws| == 1 && ws[0].0 == id
  {
    if |ws| == 1 && ws[0].0 == id {
      assert ws[0].0 == id;
    }
  }

  /** `updateSection(name, d)` writes `id` exactly when `d` gives it. */
  lemma SectionTargets(name: string, d: SectionData, id: string)
    ensures Targeted(SectionWrites(name, d), id) <==> SectionGives(name, d, id)
  {
    var t := TitleWrites(name, d);
    var b := BodyWrites(name, d);
    var q := QuestionWrites(name, d);
    var x := SpecialWrites(name, d);
    TargetedAppend(t, b, id);
    TargetedAppend(t + b, q, id);
    TargetedAppend(t + b + q, x, id);
    TargetedOne(t, id);
    TargetedOne(b, id);
    TargetedOne(q, id);
    TargetedOne(x, id);
    assert Targeted(t, id) <==> id == name + "-title" && Truthy(d.title) && id !in Protected;
    assert Targeted(b, id) <==> id == name + "-body" && Truthy(d.body);
    assert Targeted(q, id) <==> id == name + "-question" && Truthy(d.question);
    assert "try-cta" !in Protected;
    assert Targeted(x, id) <==>
             (name == "aiq" && id == "aiq-bullets" && d.bullets.Some?) || (name == "try" && id == "try-cta" && Truthy(d.cta));
  }

  /** The sections of `names` write `id` exactly when one of them present in
      the data gives it. */
  lemma {:induction false} SectionsTargets(data: Data, names: seq<string>, id: string)
    ensures Targeted(SectionsWrites(data, names), id) <==>
              exists k :: 0 <= k < |names| && names[k] in data.sections && SectionGives(names[k], data.sections[names[k]], id)
    decreases |names|
  {
    if names != [] {
      var n := |names| - 1;
      var front := names[..n];
      var last := if names[n] in data.sections then SectionWrites(names[n], data.sections[names[n]]) else [];
      SectionsTargets(data, front, id);
      TargetedAppend(SectionsWrites(data, front), last, id);
      if names[n] in data.sections {
        SectionTargets(names[n], data.sections[names[n]], id);
      }
      if exists k :: 0 <= k < |names| && names[k] in data.sections && SectionGives(names[k], data.sections[names[k]], id) {
        var k :| 0 <= k < |names| && names[k] in data.sections && SectionGives(names[k], data.sections[names[k]], id);
        if k < n {
          assert front[k] == names[k];
        }
      }
      if exists k :: 0 <= k < |front| && front[k] in data.sections && SectionGives(front[k], data.sections[front[k]], id) {
        var k :| 0 <= k < |front| && front[k] in data.sections && SectionGives(front[k], data.sections[front[k]], id);
        assert names[k] == front[k];
      }
    }
  }

  /** The merge writes an element exactly when the content gives a value for it. */
  lemma MergeTargetsGiven(data: Data, id: string)
    ensures Targeted(ContentWrites(data), id) <==> Gives(data, id)
  {
    TargetedAppend(HeroWrites(data), SectionsWrites(data, Sections), id);
    SectionsTargets(data, Sections, id);
    if data.hero.Some? {
      var title := ElementWrites("hero-title", data.hero.value.title);
      var kicker := ElementWrites("hero-kicker", data.hero.value.kicker);
      TargetedAppend(title, kicker, id);
      TargetedOne(title, id);
      TargetedOne(kicker, id);
    }
    assert Targeted(HeroWrites(data), id) <==>
             id == "hero-kicker" && data.hero.Some? && Truthy(data.hero.value.kicker);
  }

  lemma {:induction false} LastAssignedNamed(ws: seq<Write>, id: string)
    requires Targeted(ws, id)
    ensures LastAssigned(ws, id).Some?
    decreases |ws|
  {
    var n := |ws| - 1;
    if ws[n].0 != id {
      var k :| 0 <= k < |ws| && ws[k].0 == id;
      assert ws[..n][k].0 == id;
      LastAssignedNamed(ws[..n], id);
    }
  }

  /** Every element ends the merge with the last value written to it when the
      content gives one, and with its fallback text when the content does not
      (a missing section, an absent or empty field, a highlighted title). */
  lemma FallbackKeptUnlessGiven(contents: map<string, Written>, data: Data, id: string)
    requires id in contents
    ensures Gives(data, id) ==> LastAssigned(ContentWrites(data), id).Some?
    ensures Assign(contents, ContentWrites(data))[id] ==
              if Gives(data, id) then LastAssigned(ContentWrites(data), id).value else contents[id]
  {
    var ws := ContentWrites(data);
    MergeTargetsGiven(data, id);
    AssignLast(contents, ws, id);
    if Gives(data, id) {
      LastAssignedNamed(ws, id);
    } else {
      LastAssignedUnnamed(ws, id);
    }
  }

  /** Content that gives nothing. */
  const NoContent := Data(None, None, map[], None)

  /** Merging content that gives nothing leaves every element, the title, the
      step labels and the embed URL as the page had them. */
  lemma NoContentKeepsPage(contents: map<string, Written>)
    ensures Assign(contents, ContentWrites(NoContent)) == contents
    ensures !Truthy(NoContent.siteTitle) && WeekSteps(NoContent).None? && !Truthy(NoContent.hfEmbedUrl)
  {
    forall id | id in contents
      ensures Assign(contents, ContentWrites(NoContent))[id] == contents[id]
    {
      FallbackKeptUnlessGiven(contents, NoContent, id);
    }
  }

  /** Merging the same data twice leaves the page as merging it once. */
  lemma PopulateIdempotent(contents: map<string, Written>, labels: seq<string>, data: Data)
    ensures Assign(Assign(contents, ContentWrites(data)), ContentWrites(data)) == Assign(contents, ContentWrites(data))
    ensures WeekSteps(data).Some? ==>
              Relabel(Relabel(labels, WeekSteps(data).value), WeekSteps(data).value) == Relabel(labels, WeekSteps(data).value)
  {
    AssignIdempotent(contents, ContentWrites(data));
  }

  // ---------------------------------------------------------------------------
  // The page

  /** The part of the page the merge writes. */
  class Page {
    var title: string                    // `document.title`
    var contents: map<string, Written>   // the elements with an id, by id
    var labels: seq<string>              // the `.step-label` elements, in document order
    var urls: map<string, string>        // `src` of #hf-frame, `href` of #hf-link, where present

    constructor (title: string, contents: map<string, Written>, labels: seq<string>, urls: map<string, string>)
      ensures this.title == title && this.contents == contents && this.labels == labels && this.urls == urls
    {
      this.title, this.contents, this.labels, this.urls := title, contents, labels, urls;
    }

    /** `updateElement(id, content)` */
    method UpdateElement(id: string, content: Option<string>)
      modifies this`contents
      ensures contents == Assign(old(contents), ElementWrites(id, content))
    {
      if id in contents && content.Some? && content.value != "" {
        if id == "hero-title" || id == "aiq-title" {
          return;
        }
        contents := contents[id := Text(content.value)];
      }
    }

    /** `updateWeekSteps(steps)` */
    method UpdateWeekSteps(steps: Option<seq<string>>)
      modifies this`labels
      ensures labels == if steps.Some? then Relabel(old(labels), steps.value) else old(labels)
    {
      if steps.None? {
        return;
      }
      var index := 0;
      while index < |steps.value|
        invariant 0 <= index <= |steps.value|
        invariant labels == Relabel(old(labels), steps.value[..index])
      {
        if index < |labels| {
          labels := labels[index := steps.value[index]];
        }
        index := index + 1;
      }
      assert steps.value[..index] == steps.value;
    }

    /** `updateBullets(id, bullets)` */
    method UpdateBullets(id: string, bullets: Option<seq<string>>)
      modifies this`contents
      ensures contents == Assign(old(contents), BulletWrites(id, bullets))
    {
      if bullets.None? {
        return;
      }
      if id in contents {
        contents := contents[id := Html(BulletsHtml(bullets.value))];
      }
    }

    /** `updateSection(name, d)` */
    method UpdateSection(name: string, d: SectionData)
      modifies this`contents, this`labels
      ensures contents == Assign(old(contents), SectionWrites(name, d))
      ensures labels == if name == "week" && d.steps.Some? then Relabel(old(labels), d.steps.value) else old(labels)
    {
      ghost var c0 := contents;
      if d.title.Some? && d.title.value != "" {
        UpdateElement(name + "-title", d.title);
      }
      WriteBody(name, d);
      AssignAppend(c0, TitleWrites(name, d), BodyWrites(name, d));
      WriteQuestion(name, d);
      AssignAppend(c0, TitleWrites(name, d) + BodyWrites(name, d), QuestionWrites(name, d));
      if name == "week" {
        UpdateWeekSteps(d.steps);
      } else if name == "aiq" {
        UpdateBullets("aiq-bullets", d.bullets);
      } else if name == "try" {
        UpdateElement("try-cta", d.cta);
      }
      AssignAppend(c0, TitleWrites(name, d) + BodyWrites(name, d) + QuestionWrites(name, d), SpecialWrites(name, d));
    }

    /** The body: markup in the beer-game-info section, text elsewhere. */
    method WriteBody(name: string, d: SectionData)
      modifies this`contents
      ensures contents == Assign(old(contents), BodyWrites(name, d))
    {
      AssignOne(contents, BodyWrites(name, d));
      if d.body.Some? && d.body.value != "" {
        if name + "-body" in contents {
          if name == "beer-game-info" {
            contents := contents[name + "-body" := Html(d.body.value)];
          } else {
            contents := contents[name + "-body" := Text(d.body.value)];
          }
        }
      }
    }

    /** The question, always markup. */
    method WriteQuestion(name: string, d: SectionData)
      modifies this`contents
      ensures contents == Assign(old(contents), QuestionWrites(name, d))
    {
      AssignOne(contents, QuestionWrites(name, d));
      if d.question.Some? && d.question.value != "" {
        if name + "-question" in contents {
          contents := contents[name + "-question" := Html(d.question.value)];
        }
      }
    }

    /** `populateContent(data)` */
    method Populate(data: Data)
      modifies this
      ensures title == if Truthy(data.siteTitle) then data.siteTitle.value else old(title)
      ensures contents == Assign(old(contents), ContentWrites(data))
      ensures labels == if WeekSteps(data).Some? then Relabel(old(labels), WeekSteps(data).value) else old(labels)
      ensures urls == if Truthy(data.hfEmbedUrl) then Relink(old(urls), data.hfEmbedUrl.value) else old(urls)
    {
      if data.siteTitle.Some? && data.siteTitle.value != "" {
        title := data.siteTitle.value;
      }
      ghost var c0 := contents;
      MergeHero(data);
      MergeSections(data);
      AssignAppend(c0, HeroWrites(data), SectionsWrites(data, Sections));
      if data.hfEmbedUrl.Some? && data.hfEmbedUrl.value != "" {
        SetEmbedUrl(data.hfEmbedUrl.value);
      }
    }

    /** The hero's title (always kept) and kicker. */
    method MergeHero(data: Data)
      modifies this`contents
      ensures contents == Assign(old(contents), HeroWrites(data))
    {
      if data.hero.Some? {
        UpdateElement("hero-title", data.hero.value.title);
        UpdateElement("hero-kicker", data.hero.value.kicker);
        AssignAppend(old(contents), ElementWrites("hero-title", data.hero.value.title), ElementWrites("hero-kicker", data.hero.value.kicker));
      }
    }

    /** `sections.forEach(...)`: each section present in the data, in order. */
    method MergeSections(data: Data)
      modifies this`contents, this`labels
      ensures contents == Assign(old(contents), SectionsWrites(data, Sections))
      ensures labels == if WeekSteps(data).Some? then Relabel(old(labels), WeekSteps(data).value) else old(labels)
    {
      var k := 0;
      while k < |Sections|
        invariant 0 <= k <= |Sections|
        invariant contents == Assign(old(contents), SectionsWrites(data, Sections[..k]))
        // "week" is Sections[1], the only section that carries steps
        invariant labels == if k > 1 && WeekSteps(data).Some? then Relabel(old(labels), WeekSteps(data).value) else old(labels)
      {
        var name := Sections[k];
        assert name == "week" <==> k == 1;
        ghost var ws := if name in data.sections then SectionWrites(name, data.sections[name]) else [];
        if name in data.sections {
          UpdateSection(name, data.sections[name]);
        }
        AssignAppend(old(contents), SectionsWrites(data, Sections[..k]), ws);
        SectionsWritesSnoc(data, Sections, k);
        k := k + 1;
      }
      assert Sections[..k] == Sections;
    }

    /** The embed's frame and link, where present. */
    method SetEmbedUrl(url: string)
      modifies this`urls
      ensures urls == Relink(old(urls), url)
    {
      if "hf-frame" in urls {
        urls := urls["hf-frame" := url];
      }
      if "hf-link" in urls {
        urls := urls["hf-link" := url];
      }
    }
  }

  /** The embed's frame and link, where present, point at `url`. */
  function Relink(urls: map<string, string>, url: string): (r: map<string, string>)
    ensures r.Keys == urls.Keys
    ensures forall key :: key in r ==> r[key] == if key == "hf-frame" || key == "hf-link" then url else urls[key]
  {
    var u := if "hf-frame" in urls then urls["hf-frame" := url] else urls;
    if "hf-link" in u then u["hf-link" := url] else u
  }

  /** At most one write, on its own. */
  lemma AssignOne(contents: map<string, Written>, ws: seq<Write>)
    requires |ws| <= 1
    ensures ws == [] ==> Assign(contents, ws) == contents
    ensures |ws| == 1 ==> Assign(contents, ws) == if ws[0].0 in contents then contents[ws[0].0 := ws[0].1] else contents
  {
    if |ws| == 1 {
      assert ws[..0] == [];
    }
  }
}
