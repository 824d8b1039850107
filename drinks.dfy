/**
 * The drink catalogue of the test bot's site: the `Drink` record with its
 * field rules, and the import command that replaces the table's contents
 * with the seed list.
 */
module Drinks {
  import opened Opt

  /** One row of the drink table; the category is stored as its code. */
  datatype Drink = Drink(name: string, category: string, description: string, imageUrl: string)

  /** The category choices, as (stored code, label shown to people) pairs, in declaration order. */
  const CategoryChoices: seq<(string, string)> := [("tea", "茶類"), ("milk", "奶類"), ("other", "其他")]

  const DefaultCategory: string := "other"
  const NameMaxLength: nat := 100
  const CategoryMaxLength: nat := 50
  /** A URL field's default maximum length. */
  const UrlMaxLength: nat := 200

  predicate IsCategory(code: string) {
    exists k :: 0 <= k < |CategoryChoices| && CategoryChoices[k].0 == code
  }

  /** The label of a category code, `None` for a code that is not a choice. */
  function CategoryLabel(code: string): (r: Option<string>)
    ensures r.Some? <==> IsCategory(code)
    ensures r.Some? ==> exists k :: 0 <= k < |CategoryChoices| && CategoryChoices[k] == (code, r.value)
  {
    if code == "tea" then assert CategoryChoices[0] == (code, "茶類"); Some("茶類")
    else if code == "milk" then assert CategoryChoices[1] == (code, "奶類"); Some("奶類")
    else if code == "other" then assert CategoryChoices[2] == (code, "其他"); Some("其他")
    else None
  }

  /** The code of a category label, `None` for a label that is not a choice. */
  function CategoryCode(shown: string): (r: Option<string>)
    ensures r.Some? ==> exists k :: 0 <= k < |CategoryChoices| && CategoryChoices[k] == (r.value, shown)
  {
    if shown == "茶類" then assert CategoryChoices[0] == ("tea", shown); Some("tea")
    else if shown == "奶類" then assert CategoryChoices[1] == ("milk", shown); Some("milk")
    else if shown == "其他" then assert CategoryChoices[2] == ("other", shown); Some("other")
    else None
  }

  /** No two choices share a code or a label. */
  lemma ChoicesDistinct()
    ensures forall i, j :: 0 <= i < j < |CategoryChoices| ==>
      CategoryChoices[i].0 != CategoryChoices[j].0 && CategoryChoices[i].1 != CategoryChoices[j].1
  {
    forall i, j | 0 <= i < j < |CategoryChoices|
      ensures CategoryChoices[i].0 != CategoryChoices[j].0 && CategoryChoices[i].1 != CategoryChoices[j].1
    {
      assert CategoryChoices[i].0[0] != CategoryChoices[j].0[0];
      assert CategoryChoices[i].1[0] != CategoryChoices[j].1[0];
    }
  }

  /** Codes and labels are in one-to-one correspondence. */
  lemma CategoryRoundTrip(code: string)
    requires IsCategory(code)
    ensures CategoryLabel(code).Some? && CategoryCode(CategoryLabel(code).value) == Some(code)
  {
    var k :| 0 <= k < |CategoryChoices| && CategoryChoices[k].0 == code;
    assert k == 0 || k == 1 || k == 2;
  }

  /**
   * What the field declarations demand of a row: a required name of at most
   * 100 characters, a category among the choices (each code fits in 50
   * characters), a required description and an image URL of at most 200
   * characters that may be blank.
   */
  predicate Valid(d: Drink)
    ensures Valid(d) ==> d.category == "tea" || d.category == "milk" || d.category == "other"
  {
    && 0 < |d.name| <= NameMaxLength
    && IsCategory(d.category) && |d.category| <= CategoryMaxLength
    && |d.description| > 0
    && |d.imageUrl| <= UrlMaxLength
  }

  /** Every choice fits the category column. */
  lemma ChoicesFitColumn(code: string)
    requires IsCategory(code)
    ensures |code| <= CategoryMaxLength
  {
    var k :| 0 <= k < |CategoryChoices| && CategoryChoices[k].0 == code;
    assert k == 0 || k == 1 || k == 2;
  }

  /** A row built from the given fields; an omitted category is `other` and an omitted image URL is blank. */
  function NewDrink(name: string, category: Option<string>, description: string, imageUrl: Option<string>): (d: Drink)
    ensures d.name == name && d.description == description
    ensures category.None? ==> d.category == DefaultCategory
    ensures category.Some? ==> d.category == category.value
    ensures imageUrl.None? ==> d.imageUrl == ""
    ensures imageUrl.Some? ==> d.imageUrl == imageUrl.value
    ensures 0 < |name| <= NameMaxLength && |description| > 0 && category.None? && imageUrl.None? ==> Valid(d)
  {
    assert CategoryChoices[2].0 == DefaultCategory;
    Drink(name, match category case None => DefaultCategory case Some(c) => c,
          description, match imageUrl case None => "" case Some(u) => u)
  }

  /** The string form of a drink: its name. */
  function Str(d: Drink): (s: string)
    ensures Valid(d) ==> 0 < |s| <= NameMaxLength
  {
    d.name
  }

  /** The seed list of the import command, in order. */
  const Seeds: seq<Drink> := [
    Drink("春烏龍", "tea", "輕發酵，順口見長，茶香細膩。",
          "https://cc.tvbs.com.tw/img/program/upload/2024/07/04/20240704180740-d4079f88.jpg"),
    Drink("輕烏龍", "tea", "1 分火，口感溫潤，淡雅清香。",
          "https://www.niusnews.com/upload/imgs/default/202305_JEN/dejengoolongtea/5.jpg"),
    Drink("焙烏龍", "tea", "3分火，入口生津，醇厚甘潤。",
          "https://www.niusnews.com/upload/imgs/default/202305_JEN/dejengoolongtea/1.jpg"),
    Drink("黃金珍珠奶綠", "milk",
          "得正「黃金珍珠奶綠」以香醇的奶綠為基底，搭配 Q 彈的黃金珍珠，黃金珍珠以黑糖蜜製，呈現誘人的金黃色澤，口感軟 Q 香甜，與奶綠的濃郁茶香完美融合，身為珍奶控的你一定不能錯過這款經典不敗選擇。",
          "https://blog-cdn.roo.cash/blog/wp-content/uploads/2024/06/%E9%BB%83%E9%87%91%E7%8F%8D%E7%8F%A0%E5%A5%B6%E7%B6%A0.jpg"),
    Drink("烘吉鮮奶", "milk",
          "得正新推出的焙茶 HOJICHA 系列掀起一波風潮。得正「烘吉鮮奶」選用日本靜岡秋番茶以慢火焙炒，直到散發出焙茶的迷人香氣，再加入鮮奶，鮮乳香氣揉合茶香，交織出豐富、滑順的口感，非常值得一試！",
          "https://cms.dejeng.com/wp-content/uploads/2024/01/231205-%E7%83%98%E5%90%89%E8%8C%B6%E6%96%B0%E5%93%81%E7%9B%B8%E9%97%9C%E8%B2%BC%E6%96%87_%E7%B6%B2%E9%A0%81-scaled.jpg"),
    Drink("焙烏龍鮮奶", "milk",
          "得正的「焙烏龍鮮奶」以招牌焙烏龍茶為基底，加入濃醇鮮奶調製而成，茶香與奶香完美融合，完全不會覺得膩口，整體口感滑順，如果喜歡茶味大於奶味的朋友，網友大推搭配茶凍一起！增加口感與味道層次，多重享受！",
          "https://images-tw.girlstyle.com/wp-content/uploads/2023/04/595fb951.jpeg?auto=format&w=1053"),
    Drink("甘蔗春烏龍", "other",
          "得正的「甘蔗春烏龍」以清爽的春烏龍為基底，加入新鮮甘蔗汁，甘蔗的清甜與春烏龍的淡雅茶香完美融合，口感清爽甘甜，帶有自然的甘蔗香氣，非常適合炎炎夏日來上一口，清涼又消暑！",
          "https://blog-cdn.roo.cash/blog/wp-content/uploads/2024/06/%E7%94%98%E8%94%97%E6%98%A5%E7%83%8F%E9%BE%8D.jpg"),
    Drink("優酪春烏龍", "other",
          "這杯是得正的人氣代表！許多人第一眼看去都會誤會成「優格」，這杯「優酪春烏龍」（55元，中杯、65元，大杯）並不是優格，而是葡萄柚、乳酸飲料加上春烏龍的組合，葡萄柚是現榨的，因此能喝到些許果肉，茶香與酸甜果香完美結合，清爽到不行，是夏天許多人的救贖手搖飲首選，建議點微糖、無糖即可。",
          "https://tristaliu.com/wp-content/uploads/2022/11/oolong-tea-project-2.jpeg"),
    Drink("檸檬春烏龍", "other",
          "「檸檬春烏龍」（50元，中杯、60元，大杯），也水果控很愛的夏日夯品。口感偏酸，但對於喜歡酸感的飲料人來說正好是完美酸度，檸檬加烏龍茶順口不澀，怕酸的朋友也可以選無糖、一分糖，酸度比較剛好，消暑解膩大推。",
          "https://images-tw.girlstyle.com/wp-content/uploads/2023/04/e156803f.jpeg?auto=format&w=1053")
  ]

  /** Every seed row satisfies the field rules. */
  lemma SeedsValid()
    ensures |Seeds| == 9
    ensures forall k :: 0 <= k < |Seeds| ==> Valid(Seeds[k])
  {
    forall k | 0 <= k < |Seeds| ensures Valid(Seeds[k]) {
      assert Seeds[k].category == CategoryChoices[k / 3].0;
    }
  }

  /** The seeds come grouped by category, three of each, in the order of the choices. */
  lemma SeedsPerCategory()
    ensures |Seeds| == 3 * |CategoryChoices|
    ensures forall k :: 0 <= k < |Seeds| ==> Seeds[k].category == CategoryChoices[k / 3].0
  {
  }

  /** No two seed drinks share a name, so their string forms tell them apart. */
  lemma SeedNamesDistinct()
    ensures forall i, j :: 0 <= i < j < |Seeds| ==> Str(Seeds[i]) != Str(Seeds[j])
  {
    var names := ["春烏龍", "輕烏龍", "焙烏龍", "黃金珍珠奶綠", "烘吉鮮奶", "焙烏龍鮮奶", "甘蔗春烏龍", "優酪春烏龍", "檸檬春烏龍"];
    assert forall k :: 0 <= k < |Seeds| ==> Seeds[k].name == names[k];
    forall i, j | 0 <= i < j < |names| ensures names[i] != names[j] {
      assert |names[i]| != |names[j]| || names[i][0] != names[j][0];
    }
  }

  /** The drink table, as the list of its rows in insertion order. */
  class DrinkTable {
    var rows: seq<Drink>

    constructor ()
      ensures rows == []
    {
      rows := [];
    }

    /** `Drink.objects.all().delete()` */
    method DeleteAll()
      modifies this
      ensures rows == []
    {
      rows := [];
    }

    /** `Drink.objects.create(...)`: appends the row without validating it. */
    method Create(d: Drink)
      modifies this
      ensures rows == old(rows) + [d]
    {
      rows := rows + [d];
    }

    /**
     * The import command: empties the table, inserts the seeds in order and
     * returns how many it inserted. The result does not depend on what the
     * table held before, so a second run leaves the same contents.
     */
    method ImportDrinks() returns (count: nat)
      modifies this
      ensures rows == Seeds
      ensures count == |Seeds| == 9
      ensures forall k :: 0 <= k < |rows| ==> Valid(rows[k])
    {
      DeleteAll();
      var data := Seeds;
      for i := 0 to |data|
        invariant rows == data[..i]
      {
        Create(data[i]);
        assert data[..i + 1] == data[..i] + [data[i]];
      }
      assert data[..|data|] == data;
      SeedsValid();
      count := |data|;
    }
  }

  /** Running the import twice leaves the same table as running it once. */
  method ImportTwice(t: DrinkTable)
    modifies t
    ensures t.rows == Seeds
  {
    var first := t.ImportDrinks();
    var once := t.rows;
    var second := t.ImportDrinks();
    assert t.rows == once && first == second;
  }
}
