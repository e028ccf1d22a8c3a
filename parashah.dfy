/** The weekly portion: the first calendar item of category `parashat`,
    and the summary looked up by the last word of its title. */
module Parashah {
  import opened Wrappers
  import opened Words

  /** One entry of the calendar's `items` list: its `category` and
      `title` (either may be missing), and its other fields, which are only
      passed through. */
  datatype Item = Item(category: Option<string>, title: Option<string>, others: seq<(string, string)>)

  predicate IsParashat(item: Item) {
    item.category == Some("parashat")
  }

  /** The position of the first item whose category is `parashat`, as
      `next((i for i in items if ...), None)` finds it. */
  function FirstParashat(items: seq<Item>): (r: Option<nat>)
    ensures r.Some? ==> r.value < |items| && IsParashat(items[r.value])
    ensures r.Some? ==> forall j :: 0 <= j < r.value ==> !IsParashat(items[j])
    ensures r.None? <==> forall j :: 0 <= j < |items| ==> !IsParashat(items[j])
  {
    if items == [] then None
    else if IsParashat(items[0]) then Some(0)
    else
      match FirstParashat(items[1..])
      case None => None
      case Some(i) => Some(i + 1)
  }

  const AchreiMotSummary: string := "Covers Yom Kippur rituals and moral laws."

  /** The fixed summary table. */
  const Summaries: map<string, string> := map[
    "Emor" := "Discusses priestly duties, sacred times, and festivals.",
    "Achrei Mot" := AchreiMotSummary,
    "Kedoshim" := "Outlines ethical mandates and holiness codes.",
    "Behar" := "Laws of Sabbatical and Jubilee years."
  ]

  /** `summaries.get(key, '')`. */
  function LookupSummary(key: string): (r: string)
    ensures key in Summaries ==> r == Summaries[key]
    ensures key !in Summaries ==> r == ""
  {
    if key in Summaries then Summaries[key] else ""
  }

  /** `summaries.get(title.split()[-1], '') if title else ''`: a missing or
      empty title gives `''`; a title of whitespace alone has no words, so
      indexing the last one raises `IndexError`; otherwise the summary is
      looked up by the title's last word. */
  function SummaryOf(title: Option<string>): (r: Result<string, Exception>)
    ensures (title.None? || title == Some("")) ==> r == Ok("")
    ensures r.Err? <==> title.Some? && title.value != "" && AllSpace(title.value)
    ensures r.Err? ==> r.error == IndexError
    ensures r.Ok? && title.Some? && LastWord(title.value).Some? ==> r.value == LookupSummary(LastWord(title.value).value)
  {
    if title.None? || title.value == "" then Ok("")
    else
      var words := Split(title.value);
      SplitEmptyIffAllSpace(title.value);
      LastWordIsLastOfSplit(title.value);
      if |words| == 0 then Err(IndexError) else Ok(LookupSummary(words[|words| - 1]))
  }

  /** The title of the first `parashat` item, if there is one and it has a
      title, and the summary for it. */
  function ParashahSummary(items: seq<Item>): (r: Result<string, Exception>)
    ensures (forall j :: 0 <= j < |items| ==> !IsParashat(items[j])) ==> r == Ok("")
    ensures forall i :: 0 <= i < |items| && IsParashat(items[i]) && (forall j :: 0 <= j < i ==> !IsParashat(items[j]))
              ==> r == SummaryOf(items[i].title)
  {
    match FirstParashat(items)
    case None => Ok("")
    case Some(i) => SummaryOf(items[i].title)
  }

  /** Two titles ending in the same word get the same summary. */
  lemma SameLastWordSameSummary(a: string, b: string)
    requires LastWord(a).Some? && LastWord(a) == LastWord(b)
    ensures SummaryOf(Some(a)) == SummaryOf(Some(b))
    ensures SummaryOf(Some(a)).Ok?
  {
  }

  /** The key `"Achrei Mot"` holds a space, and no word of a title does, so
      its summary is never produced. */
  lemma AchreiMotUnreachable(title: Option<string>)
    ensures SummaryOf(title) != Ok(AchreiMotSummary)
  {
    if title.Some? && LastWord(title.value).Some? {
      var w := LastWord(title.value).value;
      assert IsSpace("Achrei Mot"[6]);
      assert w != "Achrei Mot";
    }
  }

  /** A title whose last word lies at `title[b..e]` gets the summary for
      that word. */
  lemma SummaryAtLastSpan(title: string, b: nat, e: nat)
    requires IsLastSpan(title, b, e)
    ensures SummaryOf(Some(title)) == Ok(LookupSummary(title[b..e]))
  {
    LastWordAt(title, b, e);
  }

  const AchreiMotTitleText: string := "Parashat Achrei Mot"
  const EmorTitleText: string := "Parashat Emor"

  /** The last word of `"Parashat Achrei Mot"` is `"Mot"`. */
  lemma AchreiMotLastWord()
    ensures LastWord(AchreiMotTitleText) == Some("Mot")
  {
    var w := "Mot";
    assert IsWord(w) by {
      assert !IsSpace(w[0]) && !IsSpace(w[1]) && !IsSpace(w[2]);
    }
    assert AchreiMotTitleText == "Parashat Achrei " + w;
    LastWordAfterSpace("Parashat Achrei ", w);
  }

  /** The title `"Parashat Achrei Mot"` ends in `"Mot"`, which is not a key,
      so its summary is empty. */
  lemma AchreiMotTitle()
    ensures SummaryOf(Some(AchreiMotTitleText)) == Ok("")
  {
    AchreiMotLastWord();
    assert "Mot" !in Summaries by {
      assert Summaries.Keys == {"Emor", "Achrei Mot", "Kedoshim", "Behar"};
      assert |"Mot"| == 3 && |"Emor"| == 4 && |"Achrei Mot"| == 10 && |"Kedoshim"| == 8 && |"Behar"| == 5;
    }
  }

  /** The last word of `"Parashat Emor"` is `"Emor"`. */
  lemma EmorLastWord()
    ensures LastWord(EmorTitleText) == Some("Emor")
  {
    var w := "Emor";
    assert IsWord(w) by {
      assert !IsSpace(w[0]) && !IsSpace(w[1]) && !IsSpace(w[2]) && !IsSpace(w[3]);
    }
    assert EmorTitleText == "Parashat " + w;
    LastWordAfterSpace("Parashat ", w);
  }

  /** The title `"Parashat Emor"` gets the summary for `"Emor"`. */
  lemma EmorTitle()
    ensures SummaryOf(Some(EmorTitleText)) == Ok(Summaries["Emor"])
  {
    EmorLastWord();
  }

  /** A title of whitespace alone raises `IndexError` instead of giving `''`. */
  lemma WhitespaceTitleRaises(title: string)
    requires title != [] && AllSpace(title)
    ensures SummaryOf(Some(title)) == Err(IndexError)
  {
  }
}
