/** The page as a list of sections (src/App.tsx:61-67) and the list operations the editor
    performs on it (src/App.tsx:915-962): append a new section, remove by id, insert a copy
    right after the original, swap with a neighbour, merge a partial section into the one with
    an id, and replace the whole list by a template. Sections are found by id, never by
    position. */
module Sections {
  import opened Wrappers
  import opened Json
  import opened Styles
  import opened Content
  import opened DefaultContents
  import Lists

  datatype Section = Section(
    id: string,
    kind: SectionType,
    content: Content,
    styles: SectionStyles,
    buttonStyles: Option<ButtonStyles>)

  /** The partial sections the editor merges into a section: new content from an inline edit,
      or a new style record or button style record from the style editor. None of them carries
      an id or a type. */
  datatype SectionPatch =
    | NewContent(content: Content)
    | NewStyles(styles: SectionStyles)
    | NewButtonStyles(buttonStyles: ButtonStyles)

  /** `{ ...s, ...u }`: the one field the patch carries is replaced; id and type are kept. */
  function Apply(s: Section, u: SectionPatch): (r: Section)
    ensures r.id == s.id && r.kind == s.kind
  {
    match u
    case NewContent(c) => s.(content := c)
    case NewStyles(st) => s.(styles := st)
    case NewButtonStyles(b) => s.(buttonStyles := Some(b))
  }

  predicate HasSection(secs: seq<Section>, id: string)
  {
    exists i :: 0 <= i < |secs| && secs[i].id == id
  }

  /** No two sections share an id, so an id names one section. */
  predicate UniqueIds(secs: seq<Section>)
  {
    forall i, j :: 0 <= i < |secs| && 0 <= j < |secs| && secs[i].id == secs[j].id ==> i == j
  }

  /** A fresh section of type `t`: the type's default content and styles, and the default
      button style (src/App.tsx:916). */
  function NewSection(id: string, t: SectionType): (r: Section)
    ensures r.id == id && r.kind == t
    ensures r.styles == GetDefaultStyles(t) && r.content == GetDefaultContent(t)
    ensures r.buttonStyles == Some(GetDefaultButtonStyles())
  {
    Section(id, t, GetDefaultContent(t), GetDefaultStyles(t), Some(GetDefaultButtonStyles()))
  }

  /** `sections.findIndex(s => s.id === id)`: the first section with the id, or -1. */
  function IndexOf(secs: seq<Section>, id: string): (i: int)
    ensures -1 <= i < |secs|
    ensures i == -1 <==> !HasSection(secs, id)
    ensures 0 <= i ==> secs[i].id == id && forall k :: 0 <= k < i ==> secs[k].id != id
  {
    Lists.IndexWhere(secs, (s: Section) => s.id == id)
  }

  lemma IndexOfUnique(secs: seq<Section>, k: nat)
    requires UniqueIds(secs) && k < |secs|
    ensures IndexOf(secs, secs[k].id) == k
  {
  }

  /** `[...sections, s]` keeps ids unique when the new section's id is new. */
  lemma AppendKeepsIdsUnique(secs: seq<Section>, s: Section)
    requires UniqueIds(secs) && !HasSection(secs, s.id)
    ensures UniqueIds(secs + [s])
  {
    var r := secs + [s];
    forall a, b | 0 <= a < |r| && 0 <= b < |r| && a != b
      ensures r[a].id != r[b].id
    {
      if a < |secs| && b < |secs| {
        assert r[a] == secs[a] && r[b] == secs[b];
      } else if a < |secs| {
        assert r[a] == secs[a];
      } else {
        assert r[b] == secs[b];
      }
    }
  }

  // ----- delete -----

  /** `sections.filter(s => s.id !== id)`: no section with the id is left, every other section
      is kept, and an absent id changes nothing. */
  function Deleted(secs: seq<Section>, id: string): (r: seq<Section>)
    ensures !HasSection(r, id)
    ensures forall s :: s in r <==> s in secs && s.id != id
    ensures !HasSection(secs, id) ==> r == secs
  {
    var r := Lists.Filter(secs, (s: Section) => s.id != id);
    forall s ensures s in r <==> s in secs && s.id != id {
      Lists.FilterCounts(secs, (s: Section) => s.id != id, s);
    }
    r
  }

  /** Delete keeps the others in their relative order: it distributes over concatenation. */
  lemma DeletedDistributes(xs: seq<Section>, ys: seq<Section>, id: string)
    ensures Deleted(xs + ys, id) == Deleted(xs, id) + Deleted(ys, id)
  {
    Lists.FilterAppend(xs, ys, (s: Section) => s.id != id);
  }

  /** Deleting twice is deleting once. */
  lemma DeleteIdempotent(secs: seq<Section>, id: string)
    ensures Deleted(Deleted(secs, id), id) == Deleted(secs, id)
  {
  }

  /** With unique ids, a delete of a present id removes exactly one section. */
  lemma {:induction false} DeleteRemovesOne(secs: seq<Section>, id: string)
    requires UniqueIds(secs) && HasSection(secs, id)
    ensures var i := IndexOf(secs, id);
            Deleted(secs, id) == secs[..i] + secs[i + 1..]
  {
    var i := IndexOf(secs, id);
    assert secs == secs[..i] + [secs[i]] + secs[i + 1..];
    Lists.FilterDropsRejected(secs[..i], secs[i], secs[i + 1..], (s: Section) => s.id != id);
    var r := secs[..i] + secs[i + 1..];
    forall k | 0 <= k < |r| ensures r[k].id != id {
      if k >= i {
        assert r[k] == secs[k + 1];
      }
    }
  }

  lemma {:induction false} DeleteKeepsIdsUnique(secs: seq<Section>, id: string)
    requires UniqueIds(secs)
    ensures UniqueIds(Deleted(secs, id))
  {
    if HasSection(secs, id) {
      DeleteRemovesOne(secs, id);
      RemoveAtKeepsIdsUnique(secs, IndexOf(secs, id));
    }
  }

  /** Taking one section out of a list with unique ids leaves the ids unique. */
  lemma RemoveAtKeepsIdsUnique(secs: seq<Section>, i: nat)
    requires UniqueIds(secs) && i < |secs|
    ensures UniqueIds(secs[..i] + secs[i + 1..])
  {
    var r := secs[..i] + secs[i + 1..];
    assert forall k :: 0 <= k < |r| ==> r[k] == secs[if k < i then k else k + 1];
  }

  // ----- duplicate -----

  /** `duplicateSection`: a copy of the first section with the id, under the new id, goes right
      after it; everything before and after stays in place. An absent id changes nothing. */
  function Duplicated(secs: seq<Section>, id: string, newId: string): (r: seq<Section>)
    ensures !HasSection(secs, id) ==> r == secs
    ensures HasSection(secs, id) ==>
              var i := IndexOf(secs, id);
              && |r| == |secs| + 1
              && r[..i + 1] == secs[..i + 1]
              && r[i + 1] == secs[i].(id := newId)
              && r[i + 2..] == secs[i + 1..]
  {
    var i := IndexOf(secs, id);
    if i == -1 then secs else secs[..i + 1] + [secs[i].(id := newId)] + secs[i + 1..]
  }

  /** The copy equals the original in everything but its id, and deleting the copy by its new
      id gives back the list as it was. */
  lemma DeleteUndoesDuplicate(secs: seq<Section>, id: string, newId: string)
    requires HasSection(secs, id) && !HasSection(secs, newId)
    ensures var i := IndexOf(secs, id);
            var copy := Duplicated(secs, id, newId)[i + 1];
            copy.kind == secs[i].kind && copy.content == secs[i].content
            && copy.styles == secs[i].styles && copy.buttonStyles == secs[i].buttonStyles
    ensures Deleted(Duplicated(secs, id, newId), newId) == secs
  {
    var i := IndexOf(secs, id);
    var copy := secs[i].(id := newId);
    Lists.FilterDropsRejected(secs[..i + 1], copy, secs[i + 1..], (s: Section) => s.id != newId);
    assert secs[..i + 1] + secs[i + 1..] == secs;
  }

  lemma DuplicateKeepsIdsUnique(secs: seq<Section>, id: string, newId: string)
    requires UniqueIds(secs) && !HasSection(secs, newId)
    ensures UniqueIds(Duplicated(secs, id, newId))
  {
    if HasSection(secs, id) {
      var i := IndexOf(secs, id);
      var r := Duplicated(secs, id, newId);
      forall a, b | 0 <= a < |r| && 0 <= b < |r| && a != b
        ensures r[a].id != r[b].id
      {
        var a' := if a <= i then a else a - 1;
        var b' := if b <= i then b else b - 1;
        if a != i + 1 && b != i + 1 {
          assert r[a] == secs[a'] && r[b] == secs[b'];
        } else if a != i + 1 {
          assert r[a] == secs[a'];
        } else {
          assert r[b] == secs[b'];
        }
      }
    }
  }

  // ----- move -----

  datatype Direction = Up | Down

  /** `moveSection` as it is written: the guard compares the found index with the ends of the
      list but not with -1, so an absent id moved down passes it with index -1 and target 0.
      The swap then writes the list's slot 0 with the value read at index -1, which does not
      exist (`undefined`, modelled as `None`). */
  function MovedAsWritten(secs: seq<Section>, id: string, dir: Direction): (r: seq<Option<Section>>)
    ensures |r| == |secs|
  {
    var i := IndexOf(secs, id);
    var slots := seq(|secs|, k requires 0 <= k < |secs| => Some(secs[k]));
    if (dir == Up && i > 0) || (dir == Down && i < |secs| - 1) then
      if i == -1 then slots[0 := None]
      else
        var t := if dir == Up then i - 1 else i + 1;
        Lists.Swapped(slots, i, t)
    else slots
  }

  /** Moving an absent id down in a non-empty page blanks its first section. */
  lemma MoveAbsentDownBlanksFirst(secs: seq<Section>, id: string)
    requires secs != [] && !HasSection(secs, id)
    ensures MovedAsWritten(secs, id, Down)[0] == None
  {
  }

  /** `moveSection` as intended: the section with the id trades places with its upper or lower
      neighbour; at the top (up) or bottom (down), or for an absent id, nothing changes. The
      list holds the same sections either way. */
  function Moved(secs: seq<Section>, id: string, dir: Direction): (r: seq<Section>)
    ensures |r| == |secs| && multiset(r) == multiset(secs)
    ensures var i := IndexOf(secs, id);
            && (i == -1 || (dir == Up && i == 0) || (dir == Down && i == |secs| - 1) ==> r == secs)
            && (dir == Up && i > 0 ==> r == Lists.Swapped(secs, i - 1, i))
            && (dir == Down && 0 <= i < |secs| - 1 ==> r == Lists.Swapped(secs, i, i + 1))
  {
    var i := IndexOf(secs, id);
    if i == -1 then secs
    else if dir == Up && i > 0 then Lists.Swapped(secs, i - 1, i)
    else if dir == Down && i < |secs| - 1 then Lists.Swapped(secs, i, i + 1)
    else secs
  }

  /** The guard of the corrected move: the id is on the page and has a neighbour in `dir`. */
  predicate Movable(secs: seq<Section>, id: string, dir: Direction)
  {
    var i := IndexOf(secs, id);
    i != -1 && ((dir == Up && i > 0) || (dir == Down && i < |secs| - 1))
  }

  /** On a page with unique ids a move changes the page exactly when its guard holds. */
  lemma MovableIffChanged(secs: seq<Section>, id: string, dir: Direction)
    requires UniqueIds(secs)
    ensures Movable(secs, id, dir) <==> Moved(secs, id, dir) != secs
  {
    var i := IndexOf(secs, id);
    if Movable(secs, id, dir) {
      var t := if dir == Up then i - 1 else i + 1;
      assert Moved(secs, id, dir)[t] == secs[i];
      assert secs[t].id != secs[i].id;
    }
  }

  /** For an id that is present the corrected move is the move as written. */
  lemma MoveAgreesWhenPresent(secs: seq<Section>, id: string, dir: Direction)
    requires HasSection(secs, id)
    ensures var r := Moved(secs, id, dir);
            MovedAsWritten(secs, id, dir) == seq(|r|, k requires 0 <= k < |r| => Some(r[k]))
  {
    var r := Moved(secs, id, dir);
    var w := MovedAsWritten(secs, id, dir);
    forall k | 0 <= k < |secs| ensures w[k] == Some(r[k]) {
    }
  }

  /** Moving up and then down returns the original order whenever the section was not already
      at the top. */
  lemma MoveUpThenDown(secs: seq<Section>, id: string)
    requires IndexOf(secs, id) > 0
    ensures Moved(Moved(secs, id, Up), id, Down) == secs
  {
    var i := IndexOf(secs, id);
    var m := Moved(secs, id, Up);
    assert m[i - 1] == secs[i];
    assert IndexOf(m, id) == i - 1;
    Lists.SwapTwice(secs, i - 1, i);
  }

  /** Moving down and then up returns the original order whenever the section was not already
      at the bottom; this direction needs the ids to be unique, since otherwise the neighbour
      moved up could carry the same id and be found first. */
  lemma MoveDownThenUp(secs: seq<Section>, id: string)
    requires UniqueIds(secs)
    requires 0 <= IndexOf(secs, id) < |secs| - 1
    ensures Moved(Moved(secs, id, Down), id, Up) == secs
  {
    var i := IndexOf(secs, id);
    var m := Moved(secs, id, Down);
    assert m[i] == secs[i + 1] && secs[i + 1].id != id;
    assert IndexOf(m, id) == i + 1;
    Lists.SwapTwice(secs, i, i + 1);
  }

  lemma MoveKeepsIdsUnique(secs: seq<Section>, id: string, dir: Direction)
    requires UniqueIds(secs)
    ensures UniqueIds(Moved(secs, id, dir))
  {
    var i := IndexOf(secs, id);
    var r := Moved(secs, id, dir);
    if r != secs {
      var t := if dir == Up then i - 1 else i + 1;
      forall a, b | 0 <= a < |r| && 0 <= b < |r| && a != b
        ensures r[a].id != r[b].id
      {
        var a' := if a == i then t else if a == t then i else a;
        var b' := if b == i then t else if b == t then i else b;
        assert r[a] == secs[a'] && r[b] == secs[b'];
      }
    }
  }

  // ----- update -----

  /** `sections.map(s => s.id === id ? { ...s, ...u } : s)`: the patch goes into the section(s)
      with the id, every other section is untouched, and no id changes. */
  function Updated(secs: seq<Section>, id: string, u: SectionPatch): (r: seq<Section>)
    ensures |r| == |secs|
    ensures forall k :: 0 <= k < |secs| ==> r[k].id == secs[k].id
    ensures forall k :: 0 <= k < |secs| && secs[k].id != id ==> r[k] == secs[k]
    ensures forall k :: 0 <= k < |secs| && secs[k].id == id ==> r[k] == Apply(secs[k], u)
    ensures !HasSection(secs, id) ==> r == secs
  {
    Lists.MapWhere(secs, (s: Section) => s.id == id, (s: Section) => Apply(s, u))
  }

  /** An edit of a section that is then deleted leaves no trace. */
  lemma {:induction false} DeleteAfterUpdate(secs: seq<Section>, id: string, u: SectionPatch)
    ensures Deleted(Updated(secs, id, u), id) == Deleted(secs, id)
  {
    if secs != [] {
      DeleteAfterUpdate(secs[1..], id, u);
      var r := Updated(secs, id, u);
      assert r == [r[0]] + Updated(secs[1..], id, u);
      assert secs == [secs[0]] + secs[1..];
      DeletedDistributes([r[0]], Updated(secs[1..], id, u), id);
      DeletedDistributes([secs[0]], secs[1..], id);
    }
  }

  // ----- templates -----

  /** A template section: a section without its id (src/App.tsx:763). Its content is always
      the default content of its type with some fields overridden, so it is kept as the
      overriding fields. */
  datatype Blueprint = Blueprint(
    kind: SectionType,
    overrides: Content,
    styles: SectionStyles,
    buttonStyles: Option<ButtonStyles>)

  /** `{ ...getDefaultContent(kind), ...overrides }`. */
  function BlueprintContent(b: Blueprint): Content
  {
    GetDefaultContent(b.kind) + b.overrides
  }

  /** `{ ...s, backgroundType: 'gradient', gradientFrom: from, gradientTo: to }`. */
  function Gradient(s: SectionStyles, from: string, to: string): SectionStyles
  {
    s.(backgroundType := "gradient", gradientFrom := from, gradientTo := to)
  }

  /** The section types of a template, top to bottom, are `kinds`. */
  predicate KindsAre(bps: seq<Blueprint>, kinds: seq<SectionType>)
  {
    |bps| == |kinds| && forall i :: 0 <= i < |bps| ==> bps[i].kind == kinds[i]
  }

  /** The software-service template (src/App.tsx:766-776): hero, logos, features, stats,
      pricing, testimonials, FAQ, call to action and footer. */
  function SaasTemplate(): (r: seq<Blueprint>)
    ensures KindsAre(r, [Hero, Logos, Features, Stats, Pricing, Testimonials, Faq, Cta, Footer])
  {
    [
      Blueprint(Hero,
        map["title" := Str("業務効率を\n10倍にする"),
            "subtitle" := Str("AIを活用した次世代プラットフォームで、チームの生産性を劇的に向上")],
        Gradient(GetDefaultStyles(Hero), "#0f172a", "#1e3a5f").(gradientDirection := 135),
        Some(GetDefaultButtonStyles())),
      Blueprint(Logos, map[],
        GetDefaultStyles(Logos).(backgroundColor := "#f8fafc", paddingTop := 60, paddingBottom := 60), None),
      Blueprint(Features, map[], GetDefaultStyles(Features), None),
      Blueprint(Stats, map[], Gradient(GetDefaultStyles(Stats), "#0ea5e9", "#8b5cf6"), None),
      Blueprint(Pricing, map[], GetDefaultStyles(Pricing), Some(GetDefaultButtonStyles())),
      Blueprint(Testimonials, map[], GetDefaultStyles(Testimonials).(backgroundColor := "#f8fafc"), None),
      Blueprint(Faq, map[], GetDefaultStyles(Faq), None),
      Blueprint(Cta, map[], Gradient(GetDefaultStyles(Cta), "#0ea5e9", "#8b5cf6"), Some(GetDefaultButtonStyles())),
      Blueprint(Footer, map[], GetDefaultStyles(Footer), None)
    ]
  }

  /** The figures the coaching template shows instead of the default stats. */
  function CoachingStats(): seq<Json>
  {
    Numbered([
      map["value" := Str("500+"), "label" := Str("クライアント実績")],
      map["value" := Str("95%"), "label" := Str("目標達成率")],
      map["value" := Str("10年+"), "label" := Str("経験年数")]
    ])
  }

  /** The personal-coaching template (src/App.tsx:777-785): hero, stats, features,
      testimonials, pricing, contact form and footer. */
  function CoachingTemplate(): (r: seq<Blueprint>)
    ensures KindsAre(r, [Hero, Stats, Features, Testimonials, Pricing, Contact, Footer])
  {
    [
      Blueprint(Hero,
        map["title" := Str("あなたの可能性を\n最大限に引き出す"),
            "subtitle" := Str("10年以上の経験を持つ専門コーチが、目標達成をサポートします"),
            "ctaText" := Str("無料相談を予約")],
        Gradient(GetDefaultStyles(Hero), "#1e3a5f", "#0f172a"),
        Some(GetDefaultButtonStyles())),
      Blueprint(Stats, map["stats" := Arr(CoachingStats())],
        GetDefaultStyles(Stats).(backgroundColor := "#ffffff", textColor := "#1f2937"), None),
      Blueprint(Features,
        map["title" := Str("サービス内容"), "subtitle" := Str("3つのプログラムであなたの成長をサポート")],
        GetDefaultStyles(Features), None),
      Blueprint(Testimonials, map[], GetDefaultStyles(Testimonials).(backgroundColor := "#f8fafc"), None),
      Blueprint(Pricing, map["title" := Str("コース一覧")], GetDefaultStyles(Pricing), Some(GetDefaultButtonStyles())),
      Blueprint(Contact, map["title" := Str("無料相談を予約")],
        GetDefaultStyles(Contact).(backgroundColor := "#0f172a", textColor := "#ffffff"),
        Some(GetDefaultButtonStyles())),
      Blueprint(Footer, map[], GetDefaultStyles(Footer), None)
    ]
  }

  /** The template catalogue (src/App.tsx:763-786): a blank page and the two templates above. */
  function Templates(): (r: map<string, seq<Blueprint>>)
    ensures r.Keys == {"blank", "saas", "coaching"}
  {
    map["blank" := [], "saas" := SaasTemplate(), "coaching" := CoachingTemplate()]
  }

  /** The sections of a template, each under the id the generator gives its position
      (`Date.now().toString() + Math.random()` in the editor). */
  function Instantiate(bps: seq<Blueprint>, idOf: nat -> string): (r: seq<Section>)
    ensures |r| == |bps|
    ensures forall i :: 0 <= i < |bps| ==>
              r[i] == Section(idOf(i), bps[i].kind, BlueprintContent(bps[i]), bps[i].styles, bps[i].buttonStyles)
  {
    seq(|bps|, i requires 0 <= i < |bps| =>
          Section(idOf(i), bps[i].kind, BlueprintContent(bps[i]), bps[i].styles, bps[i].buttonStyles))
  }

  /** `loadTemplate(key)`: the template's sections under new ids, or nothing for an unknown key. */
  function Loaded(key: string, idOf: nat -> string): (r: Option<seq<Section>>)
    ensures r.Some? <==> key in Templates()
    ensures r.Some? ==> r.value == Instantiate(Templates()[key], idOf)
  {
    if key in Templates() then Some(Instantiate(Templates()[key], idOf)) else None
  }

  /** Instantiating blueprints gives unique ids when the generator gives each position a
      different id. */
  lemma InstantiateIdsUnique(bps: seq<Blueprint>, idOf: nat -> string)
    requires forall i: nat, j: nat :: idOf(i) == idOf(j) ==> i == j
    ensures UniqueIds(Instantiate(bps, idOf))
  {
    var r := Instantiate(bps, idOf);
    forall a, b | 0 <= a < |r| && 0 <= b < |r| && a != b
      ensures r[a].id != r[b].id
    {
      assert r[a].id == idOf(a) && r[b].id == idOf(b);
    }
  }

  /** A template page has unique ids when the generator gives each position a different id. */
  lemma LoadedIdsUnique(key: string, idOf: nat -> string)
    requires forall i: nat, j: nat :: idOf(i) == idOf(j) ==> i == j
    ensures Loaded(key, idOf).Some? ==> UniqueIds(Loaded(key, idOf).value)
  {
    if key in Templates() {
      InstantiateIdsUnique(Templates()[key], idOf);
    }
  }
}
