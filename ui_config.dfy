/**
 * The user-interface configuration: which font to render with at a given
 * size, and how the user's key and mouse bindings are merged with the
 * default ones.
 *
 * Parsing a binding out of a configuration value and deciding whether two
 * bindings have matching triggers belong to the serialisation layer and
 * the bindings module; they are parameters here.
 */
module UiConfig {
  import opened Wrappers
  import opened Fonts

  /** A font description (only what distinguishes one font setting from another). */
  datatype Font = Font(family: string, size: FontSize)

  /** The font used at small sizes, and the size (in half points) up to which it applies. */
  datatype SmallFontConfig = SmallFontConfig(font: Font, upperBound: Option<FontSize>)

  /** The font settings of `UIConfig`. */
  datatype UIConfig = UIConfig(font: Font, smallFont: Option<SmallFontConfig>)

  // ---------------------------------------------------------------------
  // Font selection
  // ---------------------------------------------------------------------

  /** `check_bound`: the small font, when an upper bound is set and the size is at or below it. */
  function CheckBound(c: SmallFontConfig, size: FontSize): (r: Option<Font>)
    ensures r.Some? <==> c.upperBound.Some? && size <= c.upperBound.value
    ensures r.Some? ==> r.value == c.font
  {
    match c.upperBound
    case Some(bound) => if size <= bound then Some(c.font) else None
    case None => None
  }

  /** `font`: the font to render with at `size`. */
  function SelectFont(c: UIConfig, size: FontSize): (r: Font)
    ensures UsesSmallFont(c, size) ==> r == c.smallFont.value.font
    ensures !UsesSmallFont(c, size) ==> r == c.font
  {
    match c.smallFont
    case None => c.font
    case Some(small) =>
      match CheckBound(small, size)
      case None => c.font
      case Some(smallFont) => smallFont
  }

  /** The small font applies: it is configured, with an upper bound, and the size is at or below it. */
  predicate UsesSmallFont(c: UIConfig, size: FontSize) {
    c.smallFont.Some? && c.smallFont.value.upperBound.Some? && size <= c.smallFont.value.upperBound.value
  }

  /** `basic_font`: the main font, whatever the size. */
  function BasicFont(c: UIConfig): (r: Font)
    ensures r == c.font
    ensures forall size: FontSize :: !UsesSmallFont(c, size) ==> SelectFont(c, size) == r
  {
    c.font
  }

  /**
   * The sizes that get the small font are closed downwards: shrinking the
   * font never switches back to the main one.
   */
  lemma SmallFontBelowBound(c: UIConfig, a: FontSize, b: FontSize)
    requires a <= b && c.smallFont.Some? && SelectFont(c, b) == c.smallFont.value.font != c.font
    ensures SelectFont(c, a) == c.smallFont.value.font
  {
    assert UsesSmallFont(c, b);
  }

  // ---------------------------------------------------------------------
  // Binding merge
  // ---------------------------------------------------------------------

  /** The values that parse as bindings, parsed, in input order. */
  function Parsed<V, B>(values: seq<V>, parse: V -> Option<B>): (r: seq<B>)
    ensures |r| <= |values|
    decreases |values|
  {
    if values == [] then []
    else
      var front := Parsed(values[..|values| - 1], parse);
      match parse(values[|values| - 1])
      case Some(b) => front + [b]
      case None => front
  }

  /** The bindings of `s` whose triggers match none of `users` (`triggersMatch(default, user)`), in order. */
  function Surviving<B>(s: seq<B>, users: seq<B>, triggersMatch: (B, B) -> bool): (r: seq<B>)
    ensures |r| <= |s|
    decreases |s|
  {
    if s == [] then []
    else
      var front := Surviving(s[..|s| - 1], users, triggersMatch);
      if Shadowed(s[|s| - 1], users, triggersMatch) then front else front + [s[|s| - 1]]
  }

  predicate Shadowed<B>(d: B, users: seq<B>, triggersMatch: (B, B) -> bool) {
    exists i :: 0 <= i < |users| && triggersMatch(d, users[i])
  }

  /** `retain`: the bindings that do not match `user`, in order. */
  function Retain<B>(s: seq<B>, user: B, triggersMatch: (B, B) -> bool): (r: seq<B>)
    ensures |r| <= |s|
    decreases |s|
  {
    if s == [] then []
    else
      var front := Retain(s[..|s| - 1], user, triggersMatch);
      if triggersMatch(s[|s| - 1], user) then front else front + [s[|s| - 1]]
  }

  /**
   * `deserialize_bindings`: the user's values that parse, in order,
   * followed by the defaults whose triggers no user binding matches; a
   * configuration entry that is not a list at all is an error.
   */
  method DeserializeBindings<V, B>(values: Result<seq<V>, string>, defaults: seq<B>,
                                   parse: V -> Option<B>, triggersMatch: (B, B) -> bool)
    returns (r: Result<seq<B>, string>)
    ensures values.Failure? ==> r == Failure(values.error)
    ensures values.Success? ==>
              r == Success(Parsed(values.value, parse) + Surviving(defaults, Parsed(values.value, parse), triggersMatch))
  {
    if values.Failure? {
      return Failure(values.error);
    }
    var bindings := ParseValues(values.value, parse);
    var default := RemoveShadowed(defaults, bindings, triggersMatch);
    return Success(bindings + default);
  }

  /** The first loop: skip all invalid values, keep the others in order. */
  method ParseValues<V, B>(values: seq<V>, parse: V -> Option<B>) returns (bindings: seq<B>)
    ensures bindings == Parsed(values, parse)
  {
    bindings := [];
    var i := 0;
    while i < |values|
      invariant 0 <= i <= |values|
      invariant bindings == Parsed(values[..i], parse)
    {
      assert values[..i + 1][..i] == values[..i];
      match parse(values[i]) {
        case Some(binding) => bindings := bindings + [binding];
        case None =>
      }
      i := i + 1;
    }
    assert values[..i] == values;
  }

  /** The second loop: remove the defaults each user binding's triggers match. */
  method RemoveShadowed<B>(defaults: seq<B>, bindings: seq<B>, triggersMatch: (B, B) -> bool) returns (default: seq<B>)
    ensures default == Surviving(defaults, bindings, triggersMatch)
  {
    default := defaults;
    NoUsersKeepsDefaults(defaults, triggersMatch);
    var j := 0;
    while j < |bindings|
      invariant 0 <= j <= |bindings|
      invariant default == Surviving(defaults, bindings[..j], triggersMatch)
    {
      RetainOneMore(defaults, bindings[..j], bindings[j], triggersMatch);
      assert bindings[..j + 1] == bindings[..j] + [bindings[j]];
      default := Retain(default, bindings[j], triggersMatch);
      j := j + 1;
    }
    assert bindings[..j] == bindings;
  }

  /** Retaining against one more user binding is surviving the longer list. */
  lemma {:induction false} RetainOneMore<B>(s: seq<B>, users: seq<B>, user: B, triggersMatch: (B, B) -> bool)
    ensures Retain(Surviving(s, users, triggersMatch), user, triggersMatch) == Surviving(s, users + [user], triggersMatch)
    decreases |s|
  {
    if s != [] {
      var n := |s| - 1;
      RetainOneMore(s[..n], users, user, triggersMatch);
      ShadowedSnoc(s[n], users, user, triggersMatch);
      var front := Surviving(s[..n], users, triggersMatch);
      if !Shadowed(s[n], users, triggersMatch) {
        assert (front + [s[n]])[..|front|] == front;
      }
    }
  }

  lemma ShadowedSnoc<B>(d: B, users: seq<B>, user: B, triggersMatch: (B, B) -> bool)
    ensures Shadowed(d, users + [user], triggersMatch) <==> Shadowed(d, users, triggersMatch) || triggersMatch(d, user)
  {
    var all := users + [user];
    if Shadowed(d, users, triggersMatch) {
      var i :| 0 <= i < |users| && triggersMatch(d, users[i]);
      assert all[i] == users[i];
    }
    if triggersMatch(d, user) {
      assert all[|users|] == user;
    }
    if Shadowed(d, all, triggersMatch) {
      var i :| 0 <= i < |all| && triggersMatch(d, all[i]);
      if i < |users| {
        assert all[i] == users[i];
      }
    }
  }

  // ---------------------------------------------------------------------
  // Properties of the merge
  // ---------------------------------------------------------------------

  /** Parsing keeps input order: the parsed bindings of two runs of values follow each other. */
  lemma {:induction false} ParsedConcat<V, B>(a: seq<V>, b: seq<V>, parse: V -> Option<B>)
    ensures Parsed(a + b, parse) == Parsed(a, parse) + Parsed(b, parse)
    decreases |b|
  {
    if b != [] {
      var n := |b| - 1;
      assert (a + b)[..|a + b| - 1] == a + b[..n];
      assert (a + b)[|a + b| - 1] == b[n];
      ParsedConcat(a, b[..n], parse);
    } else {
      assert a + b == a;
    }
  }

  /**
   * A binding is parsed iff some value parses to it: nothing is invented
   * and every value that parses is kept.
   */
  lemma {:induction false} ParsedMembers<V, B>(values: seq<V>, parse: V -> Option<B>, b: B)
    ensures b in Parsed(values, parse) <==> exists i :: 0 <= i < |values| && parse(values[i]) == Some(b)
    decreases |values|
  {
    if values != [] {
      var n := |values| - 1;
      ParsedMembers(values[..n], parse, b);
      if exists i :: 0 <= i < |values| && parse(values[i]) == Some(b) {
        var i :| 0 <= i < |values| && parse(values[i]) == Some(b);
        if i < n {
          assert values[..n][i] == values[i];
        }
      }
      if exists i :: 0 <= i < n && parse(values[..n][i]) == Some(b) {
        var i :| 0 <= i < n && parse(values[..n][i]) == Some(b);
        assert values[i] == values[..n][i];
      }
    }
  }

  /** When no value parses, there are no user bindings. */
  lemma {:induction false} NothingParses<V, B>(values: seq<V>, parse: V -> Option<B>)
    requires forall i :: 0 <= i < |values| ==> parse(values[i]).None?
    ensures Parsed(values, parse) == []
    decreases |values|
  {
    if values != [] {
      var n := |values| - 1;
      assert forall i :: 0 <= i < n ==> values[..n][i] == values[i];
      NothingParses(values[..n], parse);
    }
  }

  /**
   * A default survives iff it is a default and no user binding's triggers
   * match it.
   */
  lemma {:induction false} SurvivingMembers<B>(s: seq<B>, users: seq<B>, triggersMatch: (B, B) -> bool, d: B)
    ensures d in Surviving(s, users, triggersMatch) <==> d in s && !Shadowed(d, users, triggersMatch)
    decreases |s|
  {
    if s != [] {
      var n := |s| - 1;
      SurvivingMembers(s[..n], users, triggersMatch, d);
      assert s == s[..n] + [s[n]];
    }
  }

  /** The surviving defaults keep their relative order: survival distributes over concatenation. */
  lemma {:induction false} SurvivingConcat<B>(a: seq<B>, b: seq<B>, users: seq<B>, triggersMatch: (B, B) -> bool)
    ensures Surviving(a + b, users, triggersMatch) == Surviving(a, users, triggersMatch) + Surviving(b, users, triggersMatch)
    decreases |b|
  {
    if b != [] {
      var n := |b| - 1;
      assert (a + b)[..|a + b| - 1] == a + b[..n];
      assert (a + b)[|a + b| - 1] == b[n];
      SurvivingConcat(a, b[..n], users, triggersMatch);
    } else {
      assert a + b == a;
    }
  }

  /** With no user bindings every default survives. */
  lemma {:induction false} NoUsersKeepsDefaults<B>(s: seq<B>, triggersMatch: (B, B) -> bool)
    ensures Surviving(s, [], triggersMatch) == s
    decreases |s|
  {
    if s != [] {
      NoUsersKeepsDefaults(s[..|s| - 1], triggersMatch);
    }
  }

  /** The merged list: what it contains, its length bound, and the defaults when nothing parses. */
  lemma MergeProperties<V, B>(values: seq<V>, defaults: seq<B>, parse: V -> Option<B>, triggersMatch: (B, B) -> bool)
    ensures var users := Parsed(values, parse);
            var merged := users + Surviving(defaults, users, triggersMatch);
            && |merged| <= |values| + |defaults|
            && merged[..|users|] == users
            && (forall i :: |users| <= i < |merged| ==> !Shadowed(merged[i], users, triggersMatch))
            && ((forall i :: 0 <= i < |values| ==> parse(values[i]).None?) ==> merged == defaults)
  {
    var users := Parsed(values, parse);
    var survivors := Surviving(defaults, users, triggersMatch);
    var merged := users + survivors;
    forall i | |users| <= i < |merged| ensures !Shadowed(merged[i], users, triggersMatch) {
      assert merged[i] == survivors[i - |users|];
      SurvivingMembers(defaults, users, triggersMatch, merged[i]);
    }
    if forall i :: 0 <= i < |values| ==> parse(values[i]).None? {
      NothingParses(values, parse);
      NoUsersKeepsDefaults(defaults, triggersMatch);
    }
  }
}
