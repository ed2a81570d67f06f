/**
 * The page-item list submitted with a refresh request: the configured
 * comma-separated item names become comma-separated `#name` selectors.
 */
module PageItems {
  import opened Wrappers
  import opened JsValues
  import opened JsStrings

  /**
   * `pageItemsToSubmit ? pageItemsToSubmit : ''`, as far as `split` can be
   * called on it: a falsy value becomes the empty list, a non-empty string
   * is kept, and any other truthy value has no `split` method (`None`).
   */
  function PageItemsSource(v: JsValue): (r: Option<string>)
    ensures !Truthy(v) ==> r == Some("")
    ensures v.Str? ==> r == Some(v.s)
    ensures r.None? <==> Truthy(v) && !v.Str?
  {
    if !Truthy(v) then Some("") else if v.Str? then Some(v.s) else None
  }

  /** Each item name, trimmed and prefixed with `#`. */
  function Selectors(names: seq<string>): (r: seq<string>)
    ensures |r| == |names|
    ensures forall j :: 0 <= j < |r| ==> r[j] == "#" + Trim(names[j])
  {
    seq(|names|, j requires 0 <= j < |names| => "#" + Trim(names[j]))
  }

  /**
   * `s.split(',').map(id => id.trim()).map(id => `#${id}`).join(',')`: the
   * rewritten list has as many commas as the input, and its j-th
   * comma-separated piece is `#` followed by the trimmed j-th input piece.
   */
  function Rewrite(s: string): (r: string)
    ensures Split(r, ',') == Selectors(Split(s, ','))
    ensures Count(r, ',') == Count(s, ',')
    ensures forall j :: 0 <= j < |Split(s, ',')| ==> Split(r, ',')[j] == "#" + Trim(Split(s, ',')[j])
  {
    var sel := Selectors(Split(s, ','));
    SelectorsWithoutSeparator(Split(s, ','));
    SplitJoin(sel, ',');
    Join(sel, ',')
  }

  /** A selector contains a comma only if its item name does. */
  lemma SelectorsWithoutSeparator(names: seq<string>)
    requires forall j :: 0 <= j < |names| ==> ',' !in names[j]
    ensures forall j :: 0 <= j < |names| ==> ',' !in Selectors(names)[j]
  {
    forall j | 0 <= j < |names| ensures ',' !in Selectors(names)[j] {
      assert ',' !in names[j];
      assert Selectors(names)[j] == "#" + Trim(names[j]);
    }
  }

  /** An absent or empty list is submitted as the lone selector `#`. */
  lemma RewriteEmpty(v: JsValue)
    requires !Truthy(v)
    ensures PageItemsSource(v) == Some("") && Rewrite("") == "#"
  {
  }

  /** A list already written without spaces gets exactly one `#` per item and nothing else. */
  lemma RewriteTrimmed(s: string)
    requires forall k :: 0 <= k < |s| ==> !IsWhiteSpace(s[k])
    ensures forall j :: 0 <= j < |Split(s, ',')| ==> Selectors(Split(s, ','))[j] == "#" + Split(s, ',')[j]
  {
    var names := Split(s, ',');
    forall j | 0 <= j < |names| ensures Trim(names[j]) == names[j] {
      PieceOfSplit(s, ',', j);
      forall k | 0 <= k < |names[j]| ensures !IsWhiteSpace(names[j][k]) {
        assert names[j][k] in names[j];
      }
    }
  }

  /** Every character of a piece of a split is a character of the split string. */
  lemma {:induction false} PieceOfSplit(s: string, sep: char, j: nat)
    requires j < |Split(s, sep)|
    ensures forall c :: c in Split(s, sep)[j] ==> c in s
  {
    if s != [] {
      var rest := Split(s[1..], sep);
      if s[0] == sep {
        if j > 0 {
          PieceOfSplit(s[1..], sep, j - 1);
        }
      } else if j == 0 {
        PieceOfSplit(s[1..], sep, 0);
      } else {
        PieceOfSplit(s[1..], sep, j);
      }
    }
  }
}
