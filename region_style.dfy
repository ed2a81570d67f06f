/**
 * The inline style written on the region element: a width and a height
 * declaration, each present only when its value is truthy.
 */
module RegionStyle {
  import opened JsValues
  import opened SliderConfig

  /**
   * One declaration `prop:value;`: a number is a length in pixels, any
   * other truthy value is used as written, and a falsy value gives no
   * declaration at all.
   */
  function Declaration(prop: string, v: JsValue): (d: string)
    ensures d == [] <==> !Truthy(v)
    ensures v.Num? && v.n != 0 ==> d == prop + ":" + IntToString(v.n) + "px;"
    ensures v.Str? && v.s != "" ==> d == prop + ":" + v.s + ";"
    ensures Truthy(v) && !v.Num? ==> d == prop + ":" + ToJsString(v) + ";"
  {
    if Truthy(v) then
      prop + ":" + (if v.Num? then IntToString(v.n) + "px" else ToJsString(v)) + ";"
    else []
  }

  /** `style += prop + ':' + value + ';'` when the value is truthy. */
  method AppendDeclaration(style: string, prop: string, v: JsValue) returns (s: string)
    ensures s == style + Declaration(prop, v)
  {
    s := style;
    if Truthy(v) {
      s := s + prop + ":" + (if v.Num? then IntToString(v.n) + "px" else ToJsString(v)) + ";";
    }
  }

  /**
   * The region style, built by appending to an initially empty string as
   * the adapter does; width and height default to 800 and 500 pixels.
   */
  method BuildRegionStyle(c: Config) returns (style: string)
    ensures style == Declaration("width", OrDefault(c.width, Num(800))) +
                     Declaration("height", OrDefault(c.height, Num(500)))
    ensures c.width.Undef? && c.height.Undef? ==> style == "width:800px;height:500px;"
  {
    var width := OrDefault(c.width, Num(800));
    var height := OrDefault(c.height, Num(500));
    style := "";
    style := AppendDeclaration(style, "width", width);
    assert style == Declaration("width", width);
    style := AppendDeclaration(style, "height", height);
    if c.width.Undef? && c.height.Undef? {
      assert width == Num(800) && height == Num(500);
      DefaultStyle();
    }
  }

  /** With neither size given, the style is exactly `width:800px;height:500px;`. */
  lemma DefaultStyle()
    ensures Declaration("width", Num(800)) + Declaration("height", Num(500)) == "width:800px;height:500px;"
  {
    DefaultWidth();
    DefaultHeight();
  }

  lemma DefaultWidth()
    ensures Declaration("width", Num(800)) == "width:800px;"
  {
  }

  lemma DefaultHeight()
    ensures Declaration("height", Num(500)) == "height:500px;"
  {
  }
}
