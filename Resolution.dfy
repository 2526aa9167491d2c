/** The image-size check of the entity validator as pure helpers: reading an "AxB" resolution
    setting and the four bound comparisons. */
module Resolution {
  import opened Values
  import opened Strings
  import opened ErrorStore

  const MaxWidthTemplate := "The width of the image(@width) is bigger then the allowed size(@max-width)"
  const MaxHeightTemplate := "The width of the image(@height) is bigger then the allowed size(@max-height)"
  const MinWidthTemplate := "The width of the image(@width) is bigger then the allowed size(@min-width) "
  const MinHeightTemplate := "The width of the image(@height) is bigger then the allowed size(@min-height) "

  function IndexOf(s: string, c: char): (i: nat)
    requires c in s
    ensures i < |s| && s[i] == c && c !in s[..i]
    decreases |s|
  {
    if s[0] == c then 0 else assert c in s[1..]; 1 + IndexOf(s[1..], c)
  }

  /** A setting "AxB": digits, one "x", digits. */
  predicate WellFormed(s: string) {
    'x' in s && IsDigits(s[..IndexOf(s, 'x')]) && IsDigits(s[IndexOf(s, 'x') + 1..])
  }

  /** What the image check accepts as a setting: unset ("", "0") or well formed. */
  predicate SettingOk(s: string) {
    EmptyString(s) || WellFormed(s)
  }

  /** `list($first, $second) = explode("x", $s)`; a well-formed setting holds one "x" only. */
  function Explode(s: string): (string, string)
    requires WellFormed(s)
  {
    var i := IndexOf(s, 'x');
    (s[..i], s[i + 1..])
  }

  /** The two components as numbers, first component first. */
  function Components(s: string): (nat, nat)
    requires WellFormed(s)
  {
    (ParseNat(Explode(s).0), ParseNat(Explode(s).1))
  }

  /** The setting an administrator writes for first component `a` and second `b`. */
  function FormatResolution(a: nat, b: nat): string {
    NatToString(a) + "x" + NatToString(b)
  }

  lemma {:induction false} IndexOfAfter(p: string, q: string, c: char)
    requires c !in p && q != [] && q[0] == c
    ensures c in p + q && IndexOf(p + q, c) == |p|
    decreases |p|
  {
    assert (p + q)[|p|] == c;
    if p != [] {
      assert (p + q)[1..] == p[1..] + q;
      IndexOfAfter(p[1..], q, c);
    }
  }

  /** A written setting reads back as the same two components, in the same order. */
  lemma ResolutionRoundTrip(a: nat, b: nat)
    ensures WellFormed(FormatResolution(a, b))
    ensures Explode(FormatResolution(a, b)) == (NatToString(a), NatToString(b))
    ensures Components(FormatResolution(a, b)) == (a, b)
  {
    var p, q := NatToString(a), NatToString(b);
    SplitAtX(p, q);
    ParseNatToString(a);
    ParseNatToString(b);
  }

  /** Digits, "x", digits: the first "x" is the one between the two runs. */
  lemma SplitAtX(p: string, q: string)
    requires IsDigits(p) && IsDigits(q)
    ensures 'x' in p + "x" + q && IndexOf(p + "x" + q, 'x') == |p|
    ensures (p + "x" + q)[..|p|] == p && (p + "x" + q)[|p| + 1..] == q
  {
    assert 'x' !in p by {
      forall j | 0 <= j < |p| ensures p[j] != 'x' {
        assert IsDigit(p[j]);
      }
    }
    assert p + "x" + q == p + ("x" + q);
    IndexOfAfter(p, "x" + q, 'x');
  }

  /** `$value['width']` and `$value['height']`: only an image value has them; any other value
      reads them as NULL. */
  function WidthOf(v: Value): Option<int> {
    if v.Image? then Some(v.width) else None
  }

  function HeightOf(v: Value): Option<int> {
    if v.Image? then Some(v.height) else None
  }

  function DimText(d: Option<int>): string {
    if d.Some? then IntToString(d.value) else ""
  }

  /** `$dim > $bound` against a numeric string: NULL is never above a bound of digits. */
  predicate Above(d: Option<int>, bound: nat) {
    d.Some? && d.value > bound
  }

  /** `$dim < $bound` against a numeric string: NULL ("" as a string) is below any bound of digits. */
  predicate Below(d: Option<int>, bound: nat) {
    d.None? || d.value < bound
  }

  function Fired(cond: bool, field: string, template: string, params: map<string, string>): seq<Recorded> {
    if cond then [Recorded(field, template, params)] else []
  }

  function BaseParams(v: Value): map<string, string> {
    map["@width" := DimText(WidthOf(v)), "@height" := DimText(HeightOf(v))]
  }

  /** The parameters after the maximum setting was read: `$params += [...]`. */
  function MaxParams(v: Value, max: string): map<string, string>
    requires SettingOk(max)
  {
    if EmptyString(max) then BaseParams(v)
    else BaseParams(v)["@max-width" := Explode(max).1]["@max-height" := Explode(max).0]
  }

  function MinParams(v: Value, max: string, min: string): map<string, string>
    requires SettingOk(max) && SettingOk(min)
  {
    if EmptyString(min) then MaxParams(v, max)
    else MaxParams(v, max)["@min-width" := Explode(min).1]["@min-height" := Explode(min).0]
  }

  /** What the maximum setting "HxW" adds: a width check, then a height check. */
  function MaxRecords(field: string, v: Value, max: string): seq<Recorded>
    requires SettingOk(max)
  {
    if EmptyString(max) then []
    else
      var (maxHeight, maxWidth) := Components(max);
      Fired(Above(WidthOf(v), maxWidth), field, MaxWidthTemplate, MaxParams(v, max))
      + Fired(Above(HeightOf(v), maxHeight), field, MaxHeightTemplate, MaxParams(v, max))
  }

  /** What the minimum setting "HxW" adds, with the same reading of its components. */
  function MinRecords(field: string, v: Value, max: string, min: string): seq<Recorded>
    requires SettingOk(max) && SettingOk(min)
  {
    if EmptyString(min) then []
    else
      var (minHeight, minWidth) := Components(min);
      Fired(Below(WidthOf(v), minWidth), field, MinWidthTemplate, MinParams(v, max, min))
      + Fired(Below(HeightOf(v), minHeight), field, MinHeightTemplate, MinParams(v, max, min))
  }

  /** A set maximum fires its width check on the second component and its height check on the
      first, both with the parameters read from it. */
  lemma MaxRecordsSet(field: string, v: Value, max: string)
    requires WellFormed(max) && !EmptyString(max)
    ensures MaxParams(v, max) == BaseParams(v)["@max-width" := Explode(max).1]["@max-height" := Explode(max).0]
    ensures MaxRecords(field, v, max)
         == Fired(Above(WidthOf(v), ParseNat(Explode(max).1)), field, MaxWidthTemplate, MaxParams(v, max))
          + Fired(Above(HeightOf(v), ParseNat(Explode(max).0)), field, MaxHeightTemplate, MaxParams(v, max))
  {
  }

  lemma MinRecordsSet(field: string, v: Value, max: string, min: string)
    requires SettingOk(max) && WellFormed(min) && !EmptyString(min)
    ensures MinParams(v, max, min) == MaxParams(v, max)["@min-width" := Explode(min).1]["@min-height" := Explode(min).0]
    ensures MinRecords(field, v, max, min)
         == Fired(Below(WidthOf(v), ParseNat(Explode(min).1)), field, MinWidthTemplate, MinParams(v, max, min))
          + Fired(Below(HeightOf(v), ParseNat(Explode(min).0)), field, MinHeightTemplate, MinParams(v, max, min))
  {
  }

  /** What `validateImageField` records for a value under the two settings. */
  function ImageRecords(field: string, v: Value, max: string, min: string): seq<Recorded>
    requires SettingOk(max) && SettingOk(min)
  {
    MaxRecords(field, v, max) + MinRecords(field, v, max, min)
  }

  function Messages(rs: seq<Recorded>): (ms: seq<string>)
    ensures |ms| == |rs|
    decreases |rs|
  {
    if rs == [] then [] else Messages(rs[..|rs| - 1]) + [rs[|rs| - 1].message]
  }

  function MessageIf(c: bool, m: string): seq<string> {
    if c then [m] else []
  }

  /** For an image of width `w` and height `h` under settings written "HxW", the four checks
      run independently, in the order max width, max height, min width, min height, each
      recording one error for the field exactly when its bound is crossed. */
  lemma ImageChecksIndependent(field: string, w: int, h: int, maxH: nat, maxW: nat, minH: nat, minW: nat)
    ensures var rs := ImageRecords(field, Image(w, h), FormatResolution(maxH, maxW), FormatResolution(minH, minW));
      && Messages(rs) == (MessageIf(w > maxW, MaxWidthTemplate) + MessageIf(h > maxH, MaxHeightTemplate))
                         + (MessageIf(w < minW, MinWidthTemplate) + MessageIf(h < minH, MinHeightTemplate))
      && forall i :: 0 <= i < |rs| ==> rs[i].field == field
  {
    var max, min := FormatResolution(maxH, maxW), FormatResolution(minH, minW);
    ResolutionRoundTrip(maxH, maxW);
    ResolutionRoundTrip(minH, minW);
    SettingChecks(field, Image(w, h), max, min, maxH, maxW, minH, minW);
  }

  lemma SettingChecks(field: string, v: Value, max: string, min: string, maxH: nat, maxW: nat, minH: nat, minW: nat)
    requires v.Image?
    requires WellFormed(max) && Components(max) == (maxH, maxW)
    requires WellFormed(min) && Components(min) == (minH, minW)
    ensures var rs := ImageRecords(field, v, max, min);
      && Messages(rs) == (MessageIf(v.width > maxW, MaxWidthTemplate) + MessageIf(v.height > maxH, MaxHeightTemplate))
                         + (MessageIf(v.width < minW, MinWidthTemplate) + MessageIf(v.height < minH, MinHeightTemplate))
      && forall i :: 0 <= i < |rs| ==> rs[i].field == field
  {
    var a, b := MaxRecords(field, v, max), MinRecords(field, v, max, min);
    var w1, h1 := MessageIf(v.width > maxW, MaxWidthTemplate), MessageIf(v.height > maxH, MaxHeightTemplate);
    var w2, h2 := MessageIf(v.width < minW, MinWidthTemplate), MessageIf(v.height < minH, MinHeightTemplate);
    assert Messages(a) == w1 + h1 && forall i :: 0 <= i < |a| ==> a[i].field == field by {
      MaxChecks(field, v, max, maxH, maxW);
    }
    assert Messages(b) == w2 + h2 && forall i :: 0 <= i < |b| ==> b[i].field == field by {
      MinChecks(field, v, max, min, minH, minW);
    }
    Combine(field, a, b, w1 + h1, w2 + h2);
    assert ImageRecords(field, v, max, min) == a + b;
  }

  lemma Combine(field: string, a: seq<Recorded>, b: seq<Recorded>, ma: seq<string>, mb: seq<string>)
    requires Messages(a) == ma && forall i :: 0 <= i < |a| ==> a[i].field == field
    requires Messages(b) == mb && forall i :: 0 <= i < |b| ==> b[i].field == field
    ensures Messages(a + b) == ma + mb
    ensures forall i :: 0 <= i < |a + b| ==> (a + b)[i].field == field
  {
    ConcatChecks(field, a, b);
  }

  lemma ConcatChecks(field: string, a: seq<Recorded>, b: seq<Recorded>)
    requires forall i :: 0 <= i < |a| ==> a[i].field == field
    requires forall i :: 0 <= i < |b| ==> b[i].field == field
    ensures Messages(a + b) == Messages(a) + Messages(b)
    ensures forall i :: 0 <= i < |a + b| ==> (a + b)[i].field == field
  {
    MessagesAppend(a, b);
  }

  lemma MaxChecks(field: string, v: Value, max: string, maxH: nat, maxW: nat)
    requires v.Image?
    requires WellFormed(max) && Components(max) == (maxH, maxW)
    ensures Messages(MaxRecords(field, v, max)) == MessageIf(v.width > maxW, MaxWidthTemplate) + MessageIf(v.height > maxH, MaxHeightTemplate)
    ensures forall i :: 0 <= i < |MaxRecords(field, v, max)| ==> MaxRecords(field, v, max)[i].field == field
  {
    var p := MaxParams(v, max);
    var a := Fired(v.width > maxW, field, MaxWidthTemplate, p);
    var b := Fired(v.height > maxH, field, MaxHeightTemplate, p);
    assert MaxRecords(field, v, max) == a + b;
    MessagesAppend(a, b);
  }

  lemma MinChecks(field: string, v: Value, max: string, min: string, minH: nat, minW: nat)
    requires v.Image? && SettingOk(max)
    requires WellFormed(min) && Components(min) == (minH, minW)
    ensures Messages(MinRecords(field, v, max, min)) == MessageIf(v.width < minW, MinWidthTemplate) + MessageIf(v.height < minH, MinHeightTemplate)
    ensures forall i :: 0 <= i < |MinRecords(field, v, max, min)| ==> MinRecords(field, v, max, min)[i].field == field
  {
    var p := MinParams(v, max, min);
    var c := Fired(v.width < minW, field, MinWidthTemplate, p);
    var d := Fired(v.height < minH, field, MinHeightTemplate, p);
    assert MinRecords(field, v, max, min) == c + d;
    MessagesAppend(c, d);
  }

  lemma {:induction false} MessagesAppend(a: seq<Recorded>, b: seq<Recorded>)
    ensures Messages(a + b) == Messages(a) + Messages(b)
    decreases |b|
  {
    if b == [] {
      assert a + b == a;
    } else {
      assert (a + b)[..|a + b| - 1] == a + b[..|b| - 1];
      assert Messages(a + b) == Messages(a + b[..|b| - 1]) + [b[|b| - 1].message];
      MessagesAppend(a, b[..|b| - 1]);
    }
  }

  /** A value without dimensions (no image uploaded: NULL, a boolean, a number, a list or "")
      never exceeds a maximum and falls short of every minimum: with both settings present it
      gets exactly the two minimum errors. */
  lemma NonImageValue(field: string, v: Value, max: string, min: string)
    requires !v.Image? && (v.Str? ==> v.s == "")
    requires WellFormed(max) && WellFormed(min)
    ensures Messages(ImageRecords(field, v, max, min)) == [MinWidthTemplate, MinHeightTemplate]
  {
  }

  /** Unset settings add nothing. */
  lemma UnsetSettingsAddNothing(field: string, v: Value, max: string, min: string)
    requires EmptyString(max) && EmptyString(min)
    ensures ImageRecords(field, v, max, min) == []
  {
  }

  /** An unset maximum adds nothing whatever the minimum is: only the minimum's checks run, and
      their parameters carry no maximum bound. */
  lemma MaxUnsetOnlyMin(field: string, v: Value, max: string, min: string)
    requires EmptyString(max) && SettingOk(min)
    ensures MaxRecords(field, v, max) == []
    ensures ImageRecords(field, v, max, min) == MinRecords(field, v, max, min)
    ensures "@max-width" !in MinParams(v, max, min) && "@max-height" !in MinParams(v, max, min)
  {
    if !EmptyString(min) {
      var e := Explode(min);
      assert MinParams(v, max, min) == BaseParams(v)["@min-width" := e.1]["@min-height" := e.0];
    }
  }

  /** An unset minimum adds nothing whatever the maximum is: only the maximum's checks run. */
  lemma MinUnsetOnlyMax(field: string, v: Value, max: string, min: string)
    requires SettingOk(max) && EmptyString(min)
    ensures MinRecords(field, v, max, min) == []
    ensures ImageRecords(field, v, max, min) == MaxRecords(field, v, max)
  {
  }

  /** The worked case max "200x150", min "100x50", image 60 wide and 90 high: the height 90 is
      below the first component 100 of the minimum, and that is the only error. */
  lemma WorkedExample(field: string)
    ensures SettingOk("200x150") && SettingOk("100x50")
    ensures Messages(ImageRecords(field, Image(60, 90), "200x150", "100x50")) == [MinHeightTemplate]
  {
    WorkedSettings();
    ResolutionRoundTrip(200, 150);
    ResolutionRoundTrip(100, 50);
    ImageChecksIndependent(field, 60, 90, 200, 150, 100, 50);
  }

  lemma WorkedSettings()
    ensures FormatResolution(200, 150) == "200x150" && FormatResolution(100, 50) == "100x50"
  {
    assert NatToString(200) == "200" && NatToString(150) == "150";
    assert NatToString(100) == "100" && NatToString(50) == "50";
  }
}
