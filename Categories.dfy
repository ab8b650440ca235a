/**
 * The four canonical resource categories and the category normaliser
 * `mapCategory`: free text in, always one canonical category out.
 */
module Categories {
  import opened Text
  import opened Optional

  datatype Category = Foundation | Chief | Church | Locksmith

  /** The canonical identifier of a category, as stored on a record and used by the filter buttons. */
  function Ident(c: Category): string {
    match c
    case Foundation => "foundation"
    case Chief => "chief"
    case Church => "church"
    case Locksmith => "locksmith"
  }

  /** The Chinese display name of a category (`categoryNames`). */
  function DisplayName(c: Category): string {
    match c
    case Foundation => "基金會"
    case Chief => "里長"
    case Church => "教會"
    case Locksmith => "鎖匠"
  }

  /** The category whose canonical identifier is exactly `t`, if any. */
  function CanonicalOf(t: string): (r: Option<Category>)
    ensures r.Some? ==> Ident(r.value) == t
    ensures r.None? ==> forall c: Category :: Ident(c) != t
  {
    if t == "foundation" then Some(Foundation)
    else if t == "chief" then Some(Chief)
    else if t == "church" then Some(Church)
    else if t == "locksmith" then Some(Locksmith)
    else None
  }

  /** The keyword table, in source order: substring keyword, category it selects. */
  const Keywords: seq<(string, Category)> := [
    ("基金", Foundation), ("基金會", Foundation), ("財團", Foundation),
    ("里長", Chief), ("里辦", Chief), ("里辦公室", Chief),
    ("教會", Church), ("堂會", Church), ("教堂", Church),
    ("鎖匠", Locksmith), ("鎖行", Locksmith), ("開鎖", Locksmith)
  ]

  /** The category of the first entry of `table` whose keyword `t` contains. */
  function FirstKeyword(t: string, table: seq<(string, Category)>): Option<Category> {
    if table == [] then None
    else if Contains(t, table[0].0) then Some(table[0].1)
    else FirstKeyword(t, table[1..])
  }

  /** The text the normaliser compares: trimmed, then lower-cased. */
  function Folded(text: string): string {
    Lower(Trim(text))
  }

  /**
   * What `mapCategory` computes: empty text is `foundation`; otherwise an
   * exact canonical identifier wins, then the first keyword hit, then
   * `foundation`.
   */
  function NormalizeCategory(text: string): Category {
    if text == "" then Foundation
    else match CanonicalOf(Folded(text))
      case Some(c) => c
      case None =>
        match FirstKeyword(Folded(text), Keywords)
        case Some(c) => c
        case None => Foundation
  }

  /** The first matching entry of the table decides `FirstKeyword`. */
  lemma {:induction false} FirstKeywordAt(t: string, table: seq<(string, Category)>, k: nat)
    requires k < |table| && Contains(t, table[k].0)
    requires forall j :: 0 <= j < k ==> !Contains(t, table[j].0)
    ensures FirstKeyword(t, table) == Some(table[k].1)
  {
    if k > 0 {
      assert !Contains(t, table[0].0);
      FirstKeywordAt(t, table[1..], k - 1);
    }
  }

  /** `FirstKeyword` finds nothing exactly when no keyword of the table occurs. */
  lemma {:induction false} FirstKeywordNone(t: string, table: seq<(string, Category)>)
    ensures FirstKeyword(t, table) == None <==> forall j :: 0 <= j < |table| ==> !Contains(t, table[j].0)
  {
    if table != [] {
      FirstKeywordNone(t, table[1..]);
      assert forall j :: 1 <= j < |table| ==> table[j] == table[1..][j - 1];
    }
  }

  /**
   * `mapCategory` as the source writes it: scan the table, stop at the first
   * keyword hit, then let an exact canonical identifier override the result.
   */
  method MapCategory(categoryText: string) returns (result: Category)
    ensures result == NormalizeCategory(categoryText)
  {
    if categoryText == "" {
      return Foundation;
    }
    var text := Lower(Trim(categoryText));
    result := Foundation;
    var i := 0;
    while i < |Keywords|
      invariant 0 <= i <= |Keywords|
      invariant forall j :: 0 <= j < i ==> !Contains(text, Keywords[j].0)
      invariant result == Foundation
    {
      var (keyword, category) := Keywords[i];
      if Contains(text, keyword) {
        result := category;
        FirstKeywordAt(text, Keywords, i);
        break;
      }
      i := i + 1;
    }
    if i == |Keywords| {
      FirstKeywordNone(text, Keywords);
    }
    assert result == match FirstKeyword(text, Keywords) case Some(c) => c case None => Foundation;
    match CanonicalOf(text) {
      case Some(c) => result := c;
      case None =>
    }
  }

  /** Empty or all-white-space text normalises to `foundation`. */
  lemma BlankIsFoundation(text: string)
    requires AllSpace(text)
    ensures NormalizeCategory(text) == Foundation
  {
    TrimEmptyIff(text);
    if text != "" {
      assert Folded(text) == "";
      assert forall j :: 0 <= j < |Keywords| ==> Keywords[j].0 != "";
      NothingInEmpty(Keywords);
    }
  }

  /** Empty text contains no non-empty keyword. */
  lemma {:induction false} NothingInEmpty(table: seq<(string, Category)>)
    requires forall j :: 0 <= j < |table| ==> table[j].0 != ""
    ensures FirstKeyword("", table) == None
  {
    if table != [] {
      NothingInEmpty(table[1..]);
    }
  }

  /** Text that is not canonical and holds no keyword normalises to `foundation`. */
  lemma UnmatchedIsFoundation(text: string)
    requires CanonicalOf(Folded(text)) == None
    requires forall j :: 0 <= j < |Keywords| ==> !Contains(Folded(text), Keywords[j].0)
    ensures NormalizeCategory(text) == Foundation
  {
    FirstKeywordNone(Folded(text), Keywords);
  }

  /** For text that is not canonical, the first keyword in table order that occurs decides. */
  lemma FirstMatchWins(text: string, k: nat)
    requires text != ""
    requires CanonicalOf(Folded(text)) == None
    requires k < |Keywords| && Contains(Folded(text), Keywords[k].0)
    requires forall j :: 0 <= j < k ==> !Contains(Folded(text), Keywords[j].0)
    ensures NormalizeCategory(text) == Keywords[k].1
  {
    FirstKeywordAt(Folded(text), Keywords, k);
  }

  /** A canonical identifier, in any ASCII case and with surrounding white space, names itself. */
  lemma CanonicalWins(text: string, c: Category)
    requires Folded(text) == Ident(c)
    ensures NormalizeCategory(text) == c
  {
  }

  /** Folding leaves trimmed text with no upper-case letter unchanged. */
  lemma FoldedKeeps(s: string)
    requires NoEdgeSpace(s)
    requires forall i :: 0 <= i < |s| ==> !IsUpper(s[i])
    ensures Folded(s) == s
  {
    TrimKeeps(s);
    LowerKeeps(s);
  }

  /** Normalising a canonical identifier gives its category back. */
  lemma NormalizeIdent(c: Category)
    ensures NormalizeCategory(Ident(c)) == c
  {
    var s := Ident(c);
    assert NoEdgeSpace(s) && forall i :: 0 <= i < |s| ==> !IsUpper(s[i]) by {
      IdentIsFolded(c);
    }
    FoldedKeeps(s);
    assert CanonicalOf(Folded(s)) == Some(c);
  }

  lemma IdentIsFolded(c: Category)
    ensures NoEdgeSpace(Ident(c))
    ensures forall i :: 0 <= i < |Ident(c)| ==> !IsUpper(Ident(c)[i])
  {
    match c
    case Foundation =>
    case Chief =>
    case Church =>
    case Locksmith =>
  }

  /** The normaliser is idempotent on its own output. */
  lemma NormalizeIdempotent(text: string)
    ensures NormalizeCategory(Ident(NormalizeCategory(text))) == NormalizeCategory(text)
  {
    NormalizeIdent(NormalizeCategory(text));
  }

  /** Text (not canonical) that contains `基金`, and so `基金會`, is a foundation whatever else it holds. */
  lemma FundKeywordIsFoundation(text: string)
    requires text != "" && CanonicalOf(Folded(text)) == None
    requires Contains(Folded(text), "基金")
    ensures NormalizeCategory(text) == Foundation
  {
    FirstMatchWins(text, 0);
  }
}
