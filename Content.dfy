/** Section content: the per-type default payloads (src/App.tsx:186-234) and the item-level
    edits the section components make on their list-typed fields (features, stats,
    testimonials, FAQ items, gallery images). Every list item carries a string `id`, and every
    edit finds its item by that id, never by position. */
module Content {
  import opened Json
  import opened Styles
  import Lists

  /** A content payload is one JSON object: field name to value. */
  type Content = map<string, Json>

  /** `content[key]` is an array, as the component of the section's type expects. */
  predicate HasList(c: Content, key: string)
  {
    key in c && c[key].Arr?
  }

  function ListOf(c: Content, key: string): seq<Json>
    requires HasList(c, key)
  {
    c[key].elems
  }

  /** `{ ...content, [key]: items }`, and what a caller may rely on about it: the new list is in
      place and no other field is touched. */
  predicate OnlyListChanged(c: Content, r: Content, key: string)
  {
    && r.Keys == c.Keys + {key}
    && forall k :: k in c && k != key ==> r[k] == c[k]
  }

  function WithList(c: Content, key: string, items: seq<Json>): (r: Content)
    ensures HasList(r, key) && ListOf(r, key) == items
    ensures OnlyListChanged(c, r, key)
  {
    c[key := Arr(items)]
  }

  /** No two items of the list carry the same id. */
  ghost predicate UniqueItemIds(items: seq<Json>)
  {
    forall i, j, x :: 0 <= i < |items| && 0 <= j < |items| && HasId(items[i], x) && HasId(items[j], x) ==> i == j
  }

  predicate IdOccurs(items: seq<Json>, id: string)
  {
    exists i :: 0 <= i < |items| && HasId(items[i], id)
  }

  // ----- item-level edits -----

  /** `items.map(item => item.id === id ? { ...item, ...patch } : item)`. The item with the id
      gets the patch merged in; every other item, the order and the length stay as they were,
      so an absent id changes nothing; and a patch without an `id` key keeps every item's id. */
  function UpdateItem(items: seq<Json>, id: string, patch: map<string, Json>): (r: seq<Json>)
    ensures |r| == |items|
    ensures forall i :: 0 <= i < |items| && !HasId(items[i], id) ==> r[i] == items[i]
    ensures forall i :: 0 <= i < |items| && HasId(items[i], id) ==>
              r[i].Obj? && r[i].fields == Spread(items[i].fields, patch)
    ensures !IdOccurs(items, id) ==> r == items
    ensures "id" !in patch ==> forall i, x :: 0 <= i < |items| ==> (HasId(r[i], x) <==> HasId(items[i], x))
  {
    Lists.MapWhere(items, (item: Json) => HasId(item, id), (item: Json) => if item.Obj? then Obj(Spread(item.fields, patch)) else item)
  }

  /** `[...items, item]`: one more item, at the end, the others unchanged. */
  function AddItem(items: seq<Json>, item: Json): (r: seq<Json>)
    ensures |r| == |items| + 1 && r[..|items|] == items && r[|items|] == item
  {
    items + [item]
  }

  /** `items.filter(item => item.id !== id)`: the items with that id are gone, all others kept
      in their order; an absent id changes nothing. */
  function RemoveItem(items: seq<Json>, id: string): (r: seq<Json>)
    ensures !IdOccurs(r, id)
    ensures forall x :: x in r <==> x in items && !HasId(x, id)
    ensures !IdOccurs(items, id) ==> r == items
  {
    var r := Lists.Filter(items, item => !HasId(item, id));
    forall x ensures x in r <==> x in items && !HasId(x, id) {
      Lists.FilterCounts(items, item => !HasId(item, id), x);
    }
    r
  }

  /** Editing an item and then removing it leaves the same list as removing it straight away:
      edits never leak into the other items. */
  lemma {:induction false} RemoveAfterUpdate(items: seq<Json>, id: string, patch: map<string, Json>)
    requires "id" !in patch
    ensures RemoveItem(UpdateItem(items, id, patch), id) == RemoveItem(items, id)
  {
    if items != [] {
      RemoveAfterUpdate(items[1..], id, patch);
      var u := UpdateItem(items, id, patch);
      assert u == [u[0]] + UpdateItem(items[1..], id, patch);
      assert items == [items[0]] + items[1..];
      assert HasId(u[0], id) <==> HasId(items[0], id);
    }
  }

  /** Removing twice is removing once. */
  lemma RemoveIdempotent(items: seq<Json>, id: string)
    ensures RemoveItem(RemoveItem(items, id), id) == RemoveItem(items, id)
  {
  }

  /** Ids stay unique under every item edit, given that an added item's id is new. */
  lemma {:induction false} EditsKeepIdsUnique(items: seq<Json>, id: string, patch: map<string, Json>, item: Json, newId: string)
    requires UniqueItemIds(items)
    requires "id" !in patch
    requires HasId(item, newId) && !IdOccurs(items, newId)
    ensures UniqueItemIds(UpdateItem(items, id, patch))
    ensures UniqueItemIds(AddItem(items, item))
    ensures UniqueItemIds(RemoveItem(items, id))
  {
    var a := AddItem(items, item);
    forall i, j, x | 0 <= i < |a| && 0 <= j < |a| && HasId(a[i], x) && HasId(a[j], x)
      ensures i == j
    {
      if i == |items| || j == |items| {
        assert HasId(item, x) ==> x == newId;
      }
    }
    RemoveKeepsIdsUnique(items, id);
  }

  lemma {:induction false} RemoveKeepsIdsUnique(items: seq<Json>, id: string)
    requires UniqueItemIds(items)
    ensures UniqueItemIds(RemoveItem(items, id))
  {
    if items != [] {
      var rest := items[1..];
      TailIdsUnique(items);
      RemoveKeepsIdsUnique(rest, id);
      if !HasId(items[0], id) {
        var rr := RemoveItem(rest, id);
        assert RemoveItem(items, id) == [items[0]] + rr;
        forall x, k | HasId(items[0], x) && 0 <= k < |rr| ensures !HasId(rr[k], x) {
          assert rr[k] in rest;
          var m :| 0 <= m < |rest| && rest[m] == rr[k];
          assert items[m + 1] == rr[k];
        }
        ConsIdsUnique(items[0], rr);
      }
    }
  }

  lemma TailIdsUnique(items: seq<Json>)
    requires UniqueItemIds(items) && items != []
    ensures UniqueItemIds(items[1..])
  {
    var rest := items[1..];
    forall i, j, x | 0 <= i < |rest| && 0 <= j < |rest| && HasId(rest[i], x) && HasId(rest[j], x)
      ensures i == j
    {
      assert HasId(items[i + 1], x) && HasId(items[j + 1], x);
    }
  }

  lemma ConsIdsUnique(y: Json, items: seq<Json>)
    requires UniqueItemIds(items)
    requires forall x :: HasId(y, x) ==> !IdOccurs(items, x)
    ensures UniqueItemIds([y] + items)
  {
    var r := [y] + items;
    assert forall k :: 0 < k < |r| ==> r[k] == items[k - 1];
  }

  /** The item an `add` button appends to the features list (src/App.tsx:364). */
  function NewFeature(id: string): (r: Json)
    ensures HasId(r, id)
  {
    Item(id, map["icon" := Str("Star"), "title" := Str("新機能"), "description" := Str("説明を入力")])
  }

  /** The item an `add` button appends to the FAQ list (src/App.tsx:449). */
  function NewFaqItem(id: string): (r: Json)
    ensures HasId(r, id)
  {
    Item(id, map["question" := Str("新しい質問"), "answer" := Str("回答を入力してください")])
  }

  /** The item an `add` button appends to the gallery (src/App.tsx:532). */
  function NewImage(id: string): (r: Json)
    ensures HasId(r, id)
  {
    Item(id, map["url" := Str(""), "caption" := Str("新しい画像")])
  }

  // ----- the component helpers -----

  /** `onUpdate({ ...content, [key]: content[key].map(...) })`, the item update that the
      features, stats, testimonials, FAQ and gallery components make on their list field
      (src/App.tsx:363, 389, 426, 448, 531): only that field changes, by the item update. */
  function UpdateIn(c: Content, key: string, id: string, u: map<string, Json>): (r: Content)
    requires HasList(c, key)
    ensures OnlyListChanged(c, r, key) && HasList(r, key)
    ensures ListOf(r, key) == UpdateItem(ListOf(c, key), id, u)
  {
    WithList(c, key, UpdateItem(ListOf(c, key), id, u))
  }

  /** `onUpdate({ ...content, [key]: [...content[key], item] })`, the append that the
      features, FAQ and gallery components make with their fresh item (src/App.tsx:364, 449,
      532): only that field changes, gaining the item at the end. */
  function AddIn(c: Content, key: string, item: Json): (r: Content)
    requires HasList(c, key)
    ensures OnlyListChanged(c, r, key) && HasList(r, key)
    ensures ListOf(r, key) == AddItem(ListOf(c, key), item)
  {
    WithList(c, key, AddItem(ListOf(c, key), item))
  }

  /** `onUpdate({ ...content, features: content.features.filter(...) })`, the one removal a
      component makes (src/App.tsx:365): only that field changes, losing the items with the id. */
  function RemoveIn(c: Content, key: string, id: string): (r: Content)
    requires HasList(c, key)
    ensures OnlyListChanged(c, r, key) && HasList(r, key)
    ensures ListOf(r, key) == RemoveItem(ListOf(c, key), id)
  {
    WithList(c, key, RemoveItem(ListOf(c, key), id))
  }
}

module DefaultContents {
  import opened Json
  import opened Styles
  import opened Content

  /** A JSON array of strings. */
  function Strs(ss: seq<string>): Json
  {
    Arr(seq(|ss|, i requires 0 <= i < |ss| => Str(ss[i])))
  }

  /** `{ label, url }` entries of a footer link group, and `{ platform, url }` social links. */
  function Link(text: string, url: string): Json
  {
    Obj(map["label" := Str(text), "url" := Str(url)])
  }

  /** The fields of the items of each default list, in order, one function per type: a proof
      about one type's defaults never has to look at another's. Each list has between one and
      eight items, so the ids "1", "2", ... of its items are single digits. */
  function DefaultFeatureItems(t: SectionType): (r: seq<map<string, Json>>)
    requires t == Features
    ensures 0 < |r| < 9
  {
    [
      map["icon" := Str("Zap"), "title" := Str("圧倒的な速度"), "description" := Str("最新のテクノロジーで驚くほど高速なパフォーマンスを実現")],
      map["icon" := Str("Shield"), "title" := Str("万全のセキュリティ"), "description" := Str("エンタープライズレベルのセキュリティで大切なデータを保護")],
      map["icon" := Str("Heart"), "title" := Str("直感的なUI"), "description" := Str("誰でも簡単に使える洗練されたインターフェース")]
    ]
  }

  function DefaultPlans(t: SectionType): (r: seq<map<string, Json>>)
    requires t == Pricing
    ensures 0 < |r| < 9
  {
    [
      map["name" := Str("スターター"), "price" := Str("¥0"), "period" := Str("/月"), "description" := Str("個人利用に最適"),
               "features" := Strs(["基本機能すべて", "メールサポート", "5GBストレージ"]), "ctaText" := Str("無料で始める"), "isPopular" := Bool(false)],
      map["name" := Str("プロフェッショナル"), "price" := Str("¥2,980"), "period" := Str("/月"), "description" := Str("チームでの利用に"),
               "features" := Strs(["すべての機能", "優先サポート", "100GBストレージ", "API アクセス", "カスタム連携"]), "ctaText" := Str("14日間無料体験"), "isPopular" := Bool(true)],
      map["name" := Str("エンタープライズ"), "price" := Str("お問い合わせ"), "period" := Str(""), "description" := Str("大規模組織向け"),
               "features" := Strs(["無制限すべて", "専任サポート", "SLA保証", "オンプレミス対応"]), "ctaText" := Str("お問い合わせ"), "isPopular" := Bool(false)]
    ]
  }

  function DefaultTestimonials(t: SectionType): (r: seq<map<string, Json>>)
    requires t == Testimonials
    ensures 0 < |r| < 9
  {
    [
      map["name" := Str("田中 太郎"), "role" := Str("代表取締役"), "company" := Str("株式会社イノベーション"),
               "content" := Str("導入後、業務効率が3倍に向上しました。チーム全員が満足しています。"), "avatar" := Str(""), "rating" := Num(5.0)],
      map["name" := Str("鈴木 花子"), "role" := Str("マーケティング部長"), "company" := Str("テックスタートアップ株式会社"),
               "content" := Str("UIが直感的で、導入初日から全員が使いこなせました。サポートも素晴らしい。"), "avatar" := Str(""), "rating" := Num(5.0)]
    ]
  }

  function DefaultStats(t: SectionType): (r: seq<map<string, Json>>)
    requires t == Stats
    ensures 0 < |r| < 9
  {
    [
      map["value" := Str("10,000+"), "label" := Str("アクティブユーザー"), "icon" := Str("Users")],
      map["value" := Str("99.9%"), "label" := Str("稼働率"), "icon" := Str("TrendingUp")],
      map["value" := Str("50+"), "label" := Str("導入企業"), "icon" := Str("Award")],
      map["value" := Str("24/7"), "label" := Str("サポート体制"), "icon" := Str("Clock")]
    ]
  }

  function DefaultImages(t: SectionType): (r: seq<map<string, Json>>)
    requires t == Gallery
    ensures 0 < |r| < 9
  {
    [
      map["url" := Str(""), "caption" := Str("画像1")],
      map["url" := Str(""), "caption" := Str("画像2")],
      map["url" := Str(""), "caption" := Str("画像3")]
    ]
  }

  function DefaultLogos(t: SectionType): (r: seq<map<string, Json>>)
    requires t == Logos
    ensures 0 < |r| < 9
  {
    [
      map["name" := Str("Company A"), "url" := Str("")],
      map["name" := Str("Company B"), "url" := Str("")],
      map["name" := Str("Company C"), "url" := Str("")],
      map["name" := Str("Company D"), "url" := Str("")],
      map["name" := Str("Company E"), "url" := Str("")]
    ]
  }

  function DefaultFaqItems(t: SectionType): (r: seq<map<string, Json>>)
    requires t == Faq
    ensures 0 < |r| < 9
  {
    [
      map["question" := Str("無料プランでも全機能使えますか？"), "answer" := Str("基本機能はすべてお使いいただけます。高度な分析機能やAPI連携は有料プランで提供しています。")],
      map["question" := Str("いつでも解約できますか？"), "answer" := Str("はい、いつでも解約可能です。解約後も契約期間終了まではご利用いただけます。")],
      map["question" := Str("データの移行はできますか？"), "answer" := Str("はい、他サービスからのデータ移行をサポートしています。専門チームがお手伝いします。")]
    ]
  }

  function DefaultContactFields(t: SectionType): (r: seq<map<string, Json>>)
    requires t == Contact
    ensures 0 < |r| < 9
  {
    [
      map["type" := Str("text"), "label" := Str("お名前"), "placeholder" := Str("山田 太郎"), "required" := Bool(true), "width" := Str("half")],
      map["type" := Str("email"), "label" := Str("メールアドレス"), "placeholder" := Str("example@email.com"), "required" := Bool(true), "width" := Str("half")],
      map["type" := Str("select"), "label" := Str("お問い合わせ種別"), "placeholder" := Str("選択してください"),
               "options" := Strs(["サービスについて", "料金について", "その他"]), "required" := Bool(true), "width" := Str("full")],
      map["type" := Str("textarea"), "label" := Str("メッセージ"), "placeholder" := Str("お問い合わせ内容をご記入ください"), "required" := Bool(true), "width" := Str("full")]
    ]
  }

  function DefaultLinkGroups(t: SectionType): (r: seq<map<string, Json>>)
    requires t == Footer
    ensures 0 < |r| < 9
  {
    [
      map["title" := Str("プロダクト"), "items" := Arr([Link("機能", "#"), Link("料金", "#"), Link("導入事例", "#")])],
      map["title" := Str("サポート"), "items" := Arr([Link("ヘルプセンター", "#"), Link("お問い合わせ", "#"), Link("ステータス", "#")])],
      map["title" := Str("会社情報"), "items" := Arr([Link("会社概要", "#"), Link("採用情報", "#"), Link("ブログ", "#")])]
    ]
  }

  /** The fields a freshly added section of type `t` starts with, apart from its default item
      list. */
  function BaseContent(t: SectionType): Content
  {
    match t
    case Hero => map[
      "title" := Str("あなたのビジネスを\n次のレベルへ"),
      "subtitle" := Str("シンプルで使いやすいサービスで、ビジネスの成長を加速させます"),
      "ctaText" := Str("今すぐ始める"), "ctaLink" := Str("#contact"), "ctaIcon" := Str("ArrowRight"),
      "secondaryCtaText" := Str("詳しく見る"), "secondaryCtaLink" := Str("#features"),
      "backgroundImage" := Str(""), "showOverlay" := Bool(true)]
    case Features => map[
      "title" := Str("主な特徴"), "subtitle" := Str("私たちのサービスが選ばれる3つの理由")]
    case Pricing => map[
      "title" := Str("料金プラン"), "subtitle" := Str("シンプルで透明性のある価格設定")]
    case Testimonials => map[
      "title" := Str("お客様の声"), "subtitle" := Str("実際にご利用いただいているお客様からの声")]
    case Stats => map[
      "title" := Str(""), "subtitle" := Str("")]
    case Video => map[
      "title" := Str("サービス紹介"), "subtitle" := Str("3分でわかる私たちのサービス"),
      "videoUrl" := Str("https://www.youtube.com/embed/dQw4w9WgXcQ"), "aspectRatio" := Str("16/9")]
    case Gallery => map[
      "title" := Str("ギャラリー"), "subtitle" := Str(""),
      "columns" := Num(3.0), "gap" := Num(16.0), "aspectRatio" := Str("4/3")]
    case Logos => map[
      "title" := Str("導入企業"), "subtitle" := Str("多くの企業様にご利用いただいています"),
      "grayscale" := Bool(true)]
    case Faq => map[
      "title" := Str("よくある質問"), "subtitle" := Str("お客様からよくいただく質問をまとめました")]
    case Cta => map[
      "title" := Str("今すぐ始めましょう"), "subtitle" := Str("無料で始められます。クレジットカード不要。"),
      "buttonText" := Str("無料で始める"), "buttonLink" := Str("#"), "buttonIcon" := Str("ArrowRight"),
      "secondaryText" := Str("お問い合わせ"), "secondaryLink" := Str("#contact")]
    case Contact => map[
      "title" := Str("お問い合わせ"), "subtitle" := Str("お気軽にご相談ください"),
      "submitText" := Str("送信する"), "submitIcon" := Str("ArrowRight")]
    case Footer => map[
      "companyName" := Str("Your Company"), "description" := Str("ビジネスの成長をテクノロジーでサポートします"), "logo" := Str(""),
      "social" := Arr([
        Obj(map["platform" := Str("twitter"), "url" := Str("#")]),
        Obj(map["platform" := Str("facebook"), "url" := Str("#")]),
        Obj(map["platform" := Str("instagram"), "url" := Str("#")])]),
      "copyright" := Str("© 2026 Your Company. All rights reserved.")]
    case Divider => map[
      "style" := Str("line"), "color" := Str("#e5e7eb"), "height" := Num(1.0), "width" := Num(100.0), "pattern" := Str("solid")]
    case Spacer => map["height" := Num(80.0)]
    case Custom => map[
      "html" := Str("<div style=\"padding: 40px; text-align: center;\"><h2>カスタムセクション</h2><p>HTMLを自由に編集できます</p></div>")]
  }

  /** The fields of the items of the default item list of type `t`, in order; none for a type
      without one. */
  function DefaultItems(t: SectionType): (r: seq<map<string, Json>>)
    ensures |r| < 9
  {
    match t
    case Features => DefaultFeatureItems(t)
    case Pricing => DefaultPlans(t)
    case Testimonials => DefaultTestimonials(t)
    case Stats => DefaultStats(t)
    case Gallery => DefaultImages(t)
    case Logos => DefaultLogos(t)
    case Faq => DefaultFaqItems(t)
    case Contact => DefaultContactFields(t)
    case Footer => DefaultLinkGroups(t)
    case _ => []
  }

  /** Exactly the types with a list field have default items. */
  lemma DefaultItemsIffList(t: SectionType)
    ensures |DefaultItems(t)| > 0 <==> ItemListKey(t) != ""
  {
    match t
    case Features =>
    case Pricing =>
    case Testimonials =>
    case Stats =>
    case Gallery =>
    case Logos =>
    case Faq =>
    case Contact =>
    case Footer =>
    case _ =>
  }

  /** The content a freshly added section of type `t` starts with (src/App.tsx:186-234): its
      fields and, under its list field, its default item list numbered "1", "2", ... */
  function GetDefaultContent(t: SectionType): (r: Content)
    ensures ItemListKey(t) == "" ==> r == BaseContent(t)
    ensures ItemListKey(t) != "" ==>
              && OnlyListChanged(BaseContent(t), r, ItemListKey(t))
              && HasList(r, ItemListKey(t)) && ListOf(r, ItemListKey(t)) == Numbered(DefaultItems(t))
  {
    if ItemListKey(t) == "" then BaseContent(t)
    else WithList(BaseContent(t), ItemListKey(t), Numbered(DefaultItems(t)))
  }

  /** The field, if any, holding the type's default item list: features, plans, testimonials,
      stats, gallery images, logos, FAQ items, contact fields or footer link groups. */
  function ItemListKey(t: SectionType): string
  {
    match t
    case Features => "features"
    case Pricing => "plans"
    case Testimonials => "testimonials"
    case Stats => "stats"
    case Gallery => "images"
    case Logos => "logos"
    case Faq => "items"
    case Contact => "fields"
    case Footer => "links"
    case _ => ""
  }

  /** The id of the `i`-th default item: "1", "2", ... */
  function Numeral(i: nat): string
    requires i < 9
  {
    [(('1' as int) + i) as char]
  }

  /** Items numbered "1", "2", ... in order, as the default lists are written. */
  function Numbered(fields: seq<map<string, Json>>): (r: seq<Json>)
    requires |fields| < 9
    ensures |r| == |fields|
    ensures forall i :: 0 <= i < |r| ==> r[i] == Item(Numeral(i), fields[i])
  {
    seq(|fields|, i requires 0 <= i < |fields| => Item(Numeral(i), fields[i]))
  }

  /** Numbering gives every item its own id. */
  lemma NumberedIdsUnique(fields: seq<map<string, Json>>)
    requires |fields| < 9
    ensures UniqueItemIds(Numbered(fields))
  {
    var r := Numbered(fields);
    forall i, j, x | 0 <= i < |r| && 0 <= j < |r| && HasId(r[i], x) && HasId(r[j], x)
      ensures i == j
    {
      assert Numeral(i)[0] == Numeral(j)[0];
    }
  }

  /** Each default item list is in place, non-empty, and without two items sharing an id. */
  lemma DefaultListsHaveUniqueIds(t: SectionType)
    requires ItemListKey(t) != ""
    ensures HasList(GetDefaultContent(t), ItemListKey(t))
    ensures var items := ListOf(GetDefaultContent(t), ItemListKey(t));
            |items| > 0 && UniqueItemIds(items)
  {
    DefaultItemsIffList(t);
    NumberedIdsUnique(DefaultItems(t));
  }
}
