/** The shared button component (src/components/Button.jsx): the defaults of its
    properties, the CSS class string it assembles and when it is disabled. An
    absent property (`undefined`) is `None` and takes its default. */
module Button {
  import opened Seqs
  import Text

  datatype ButtonProps = ButtonProps(
    variant: Option<string>,
    size: Option<string>,
    hasIcon: bool,
    iconPosition: Option<string>,
    fullWidth: Option<bool>,
    loading: Option<bool>,
    disabled: Option<bool>,
    buttonType: Option<string>,
    className: Option<string>)

  /** A destructuring default: it applies only when the property is absent. */
  function OrDefault<T>(o: Option<T>, default: T): T
  {
    match o
    case None => default
    case Some(v) => v
  }

  function Variant(props: ButtonProps): string { OrDefault(props.variant, "primary") }
  function Size(props: ButtonProps): string { OrDefault(props.size, "md") }
  function IconPosition(props: ButtonProps): string { OrDefault(props.iconPosition, "left") }
  function FullWidth(props: ButtonProps): bool { OrDefault(props.fullWidth, false) }
  function Loading(props: ButtonProps): bool { OrDefault(props.loading, false) }
  function Disabled(props: ButtonProps): bool { OrDefault(props.disabled, false) }
  /** The `type` attribute: `button` unless given, so a button placed in a form
      submits it only when it is explicitly given the type `submit`. */
  function ButtonType(props: ButtonProps): (r: string)
    ensures props.buttonType == None ==> r == "button"
    ensures r == "submit" <==> props.buttonType == Some("submit")
  {
    OrDefault(props.buttonType, "button")
  }
  function ClassName(props: ButtonProps): string { OrDefault(props.className, "") }

  /** The three entries of the class array that are always present. */
  function FixedTokens(props: ButtonProps): seq<string>
  {
    ["btn", "btn-" + Variant(props), "btn-" + Size(props)]
  }

  /** The three entries that may be missing: a false flag contributes the empty
      string, which, like `false`, the `filter(Boolean)` step drops. */
  function OptionalTokens(props: ButtonProps): seq<string>
  {
    [if FullWidth(props) then "btn-full" else "",
     if Loading(props) then "btn-loading" else "",
     ClassName(props)]
  }

  /** The six entries of the class array, in order. */
  function RawTokens(props: ButtonProps): seq<string>
  {
    FixedTokens(props) + OptionalTokens(props)
  }

  function NonEmpty(): string -> bool
  {
    (t: string) => t != ""
  }

  /** The classes that survive `filter(Boolean)`, in array order. */
  function Tokens(props: ButtonProps): seq<string>
  {
    Filter(RawTokens(props), NonEmpty())
  }

  /** `classes`: the surviving tokens joined by single spaces. */
  function Classes(props: ButtonProps): string
  {
    Text.Join(Tokens(props), " ")
  }

  /** `disabled || loading`: a loading button cannot be clicked. */
  function IsDisabled(props: ButtonProps): (r: bool)
    ensures r <==> Disabled(props) || Loading(props)
    ensures props.disabled == None && props.loading == None ==> !r
    ensures Loading(props) ==> r
  {
    Disabled(props) || Loading(props)
  }

  /** The hover and tap scale look at the `disabled` property alone, so a button
      that is only loading cannot be clicked yet still grows on hover. */
  function HoverScale(props: ButtonProps): (r: real)
    ensures r == 1.0 <==> Disabled(props)
    ensures Loading(props) && !Disabled(props) ==> IsDisabled(props) && r > 1.0
  {
    if Disabled(props) then 1.0 else 1.02
  }

  /** What the button shows inside. */
  datatype Content = Spinner | Body(iconLeft: bool, iconRight: bool)

  /** A loading button shows only the spinner; otherwise the label, with the icon
      on the side `iconPosition` names (on neither side for any other value). */
  function ContentOf(props: ButtonProps): (r: Content)
    ensures r == Spinner <==> Loading(props)
    ensures r.Body? ==> !(r.iconLeft && r.iconRight)
    ensures r.Body? && (r.iconLeft || r.iconRight) ==> props.hasIcon
    ensures r.Body? && props.hasIcon && props.iconPosition == None ==> r.iconLeft
  {
    if Loading(props) then Spinner
    else Body(props.hasIcon && IconPosition(props) == "left", props.hasIcon && IconPosition(props) == "right")
  }

  /** ` t` for a kept token, nothing for a dropped one. */
  function Spaced(t: string): string
  {
    if t == "" then "" else " " + t
  }

  /** The class string in closed form: `btn btn-<variant> btn-<size>`, then
      ` btn-full` when full width, ` btn-loading` when loading and the extra class
      name when it is not empty, each after a single space. With every property
      absent it is `btn btn-primary btn-md`. */
  lemma ClassesClosedForm(props: ButtonProps)
    ensures Classes(props) == "btn btn-" + Variant(props) + " btn-" + Size(props)
                              + (if FullWidth(props) then " btn-full" else "")
                              + (if Loading(props) then " btn-loading" else "")
                              + Spaced(ClassName(props))
  {
    var opt := OptionalTokens(props);
    ClassesShape(props);
    assert opt == [opt[0], opt[1], opt[2]];
    FilterThree(opt[0], opt[1], opt[2]);
    FullSpaced(FullWidth(props));
    LoadingSpaced(Loading(props));
    ClosedFormFrom(Classes(props), Variant(props), Size(props), JoinTail(Filter(opt, NonEmpty())),
                   Spaced(opt[0]), Spaced(opt[1]), Spaced(opt[2]),
                   if FullWidth(props) then " btn-full" else "",
                   if Loading(props) then " btn-loading" else "");
  }

  lemma FullSpaced(flag: bool)
    ensures Spaced(if flag then "btn-full" else "") == if flag then " btn-full" else ""
  {
  }

  lemma LoadingSpaced(flag: bool)
    ensures Spaced(if flag then "btn-loading" else "") == if flag then " btn-loading" else ""
  {
  }

  /** The string algebra of the closed form. */
  lemma ClosedFormFrom(c: string, v: string, w: string, tail: string, x: string, y: string, z: string,
                       full: string, loading: string)
    requires c == "btn" + " " + ("btn-" + v) + " " + ("btn-" + w) + tail
    requires tail == x + y + z && x == full && y == loading
    ensures c == "btn btn-" + v + " btn-" + w + full + loading + z
  {
    Regroup(v, w, x, y, z);
  }

  /** The fixed classes, then every kept optional class after a space. */
  lemma ClassesShape(props: ButtonProps)
    ensures Classes(props) == "btn" + " " + ("btn-" + Variant(props)) + " " + ("btn-" + Size(props))
                              + JoinTail(Filter(OptionalTokens(props), NonEmpty()))
  {
    TokensSplit(props);
    JoinSpaced(FixedTokens(props), Filter(OptionalTokens(props), NonEmpty()));
  }

  lemma Regroup(v: string, w: string, x: string, y: string, z: string)
    ensures "btn" + " " + ("btn-" + v) + " " + ("btn-" + w) + (x + y + z) == "btn btn-" + v + " btn-" + w + x + y + z
  {
    assert "btn" + " " + "btn-" == "btn btn-";
    assert " " + "btn-" == " btn-";
  }

  /** With every property absent the class string is `btn btn-primary btn-md`. */
  lemma DefaultClasses(props: ButtonProps)
    requires props.variant == None && props.size == None && props.fullWidth == None
    requires props.loading == None && props.className == None
    ensures Classes(props) == "btn btn-primary btn-md"
  {
    ClassesClosedForm(props);
  }

  /** The fixed entries all survive the filter. */
  lemma TokensSplit(props: ButtonProps)
    ensures Tokens(props) == FixedTokens(props) + Filter(OptionalTokens(props), NonEmpty())
  {
    var fixed := FixedTokens(props);
    FilterConcat(fixed, OptionalTokens(props), NonEmpty());
    forall t | t in fixed
      ensures NonEmpty()(t)
    {
      assert |t| >= 3;
    }
    FilterAll(fixed, NonEmpty());
  }

  /** Joining a list that starts with three tokens `head` and continues with
      `rest`: each element of `rest` follows a single space. */
  lemma JoinSpaced(head: seq<string>, rest: seq<string>)
    requires |head| == 3
    ensures Text.Join(head + rest, " ") == head[0] + " " + head[1] + " " + head[2] + JoinTail(rest)
  {
    var s := head + rest;
    assert s[1..] == [head[1], head[2]] + rest;
    assert s[1..][1..] == [head[2]] + rest;
    JoinOne(head[2], rest);
  }

  /** Every token of the list, each after a single space. */
  function JoinTail(ts: seq<string>): string
  {
    if ts == [] then "" else " " + ts[0] + JoinTail(ts[1..])
  }

  lemma {:induction false} JoinOne(x: string, rest: seq<string>)
    ensures Text.Join([x] + rest, " ") == x + JoinTail(rest)
    decreases |rest|
  {
    if rest != [] {
      assert ([x] + rest)[1..] == rest;
      assert rest == [rest[0]] + rest[1..];
      JoinOne(rest[0], rest[1..]);
    }
  }

  /** Filtering and spacing three optional tokens is spacing each of them. */
  lemma FilterThree(a: string, b: string, c: string)
    ensures JoinTail(Filter([a, b, c], NonEmpty())) == Spaced(a) + Spaced(b) + Spaced(c)
  {
    var fa, fb, fc := Filter([a], NonEmpty()), Filter([b], NonEmpty()), Filter([c], NonEmpty());
    FilterSplitThree(a, b, c);
    KeepOne(a);
    KeepOne(b);
    KeepOne(c);
    JoinTailHead(fb, fc);
    JoinTailHead(fa, fb + fc);
    Assoc(Spaced(a), Spaced(b), Spaced(c));
  }

  lemma Assoc(x: string, y: string, z: string)
    ensures x + (y + z) == x + y + z
  {
  }

  lemma FilterSplitThree(a: string, b: string, c: string)
    ensures Filter([a, b, c], NonEmpty())
            == Filter([a], NonEmpty()) + (Filter([b], NonEmpty()) + Filter([c], NonEmpty()))
  {
    assert [a, b, c] == [a] + [b, c];
    assert [b, c] == [b] + [c];
    FilterConcat([a], [b, c], NonEmpty());
    FilterConcat([b], [c], NonEmpty());
  }

  /** One token: it is kept exactly when it is not empty, and then spaced. */
  lemma KeepOne(x: string)
    ensures |Filter([x], NonEmpty())| <= 1
    ensures JoinTail(Filter([x], NonEmpty())) == Spaced(x)
  {
    assert [x][1..] == [];
  }

  /** Spacing a list whose head holds at most one token. */
  lemma JoinTailHead(head: seq<string>, rest: seq<string>)
    requires |head| <= 1
    ensures JoinTail(head + rest) == JoinTail(head) + JoinTail(rest)
  {
    if head == [] {
      assert head + rest == rest;
    } else {
      assert (head + rest)[0] == head[0] && (head + rest)[1..] == rest;
      assert head[1..] == [];
      assert JoinTail(head) == " " + head[0];
    }
  }

  /** A class appears exactly when it is one of the fixed three or a non-empty
      optional entry. */
  lemma TokenIn(props: ButtonProps, t: string)
    ensures t in Tokens(props) <==>
              t == "btn" || t == "btn-" + Variant(props) || t == "btn-" + Size(props)
              || (t != "" && t in OptionalTokens(props))
  {
    TokensSplit(props);
    var fixed := FixedTokens(props);
    assert t in fixed <==> t == fixed[0] || t == fixed[1] || t == fixed[2];
  }

  /** Which classes appear: `btn` and the variant and size classes always do,
      an extra class name does exactly when it is not empty, and full width and
      loading always add theirs. No class is empty. */
  lemma TokensMembership(props: ButtonProps)
    ensures "btn" in Tokens(props)
    ensures "btn-" + Variant(props) in Tokens(props) && "btn-" + Size(props) in Tokens(props)
    ensures ClassName(props) != "" ==> ClassName(props) in Tokens(props)
    ensures FullWidth(props) ==> "btn-full" in Tokens(props)
    ensures Loading(props) ==> "btn-loading" in Tokens(props)
    ensures "" !in Tokens(props)
  {
    var opt := OptionalTokens(props);
    assert opt[0] in opt && opt[1] in opt && opt[2] in opt;
    TokenIn(props, "btn");
    TokenIn(props, "btn-" + Variant(props));
    TokenIn(props, "btn-" + Size(props));
    TokenIn(props, ClassName(props));
    TokenIn(props, "btn-full");
    TokenIn(props, "btn-loading");
    TokenIn(props, "");
  }

  /** The converse holds only up to a coincidence: `btn-full` also appears when
      the variant or size is `full` or the extra class name is `btn-full`, and
      likewise for `btn-loading`. */
  lemma FlagClassOrigin(props: ButtonProps)
    ensures "btn-full" in Tokens(props) ==>
              FullWidth(props) || Variant(props) == "full" || Size(props) == "full" || ClassName(props) == "btn-full"
    ensures "btn-loading" in Tokens(props) ==>
              Loading(props) || Variant(props) == "loading" || Size(props) == "loading" || ClassName(props) == "btn-loading"
  {
    FullOrigin(props);
    LoadingOrigin(props);
  }

  lemma FullOrigin(props: ButtonProps)
    ensures "btn-full" in Tokens(props) ==>
              FullWidth(props) || Variant(props) == "full" || Size(props) == "full" || ClassName(props) == "btn-full"
  {
    TokenIn(props, "btn-full");
    OptionalIn(props, "btn-full");
    assert "btn" != "btn-full" && "btn-loading" != "btn-full";
    PrefixCancels(Variant(props), "full");
    PrefixCancels(Size(props), "full");
  }

  lemma LoadingOrigin(props: ButtonProps)
    ensures "btn-loading" in Tokens(props) ==>
              Loading(props) || Variant(props) == "loading" || Size(props) == "loading" || ClassName(props) == "btn-loading"
  {
    TokenIn(props, "btn-loading");
    OptionalIn(props, "btn-loading");
    assert "btn" != "btn-loading" && "btn-full" != "btn-loading";
    PrefixCancels(Variant(props), "loading");
    PrefixCancels(Size(props), "loading");
  }

  /** A non-empty optional entry is one of the three. */
  lemma OptionalIn(props: ButtonProps, t: string)
    requires t != ""
    ensures t in OptionalTokens(props) ==>
              (FullWidth(props) && t == "btn-full") || (Loading(props) && t == "btn-loading") || t == ClassName(props)
  {
    var opt := OptionalTokens(props);
    assert t in opt <==> t == opt[0] || t == opt[1] || t == opt[2];
  }

  lemma PrefixCancels(a: string, b: string)
    ensures "btn-" + a == "btn-" + b ==> a == b
  {
    assert a == ("btn-" + a)[4..] && b == ("btn-" + b)[4..];
  }
}
