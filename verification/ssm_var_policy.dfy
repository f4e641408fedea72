/**
 * Validation rules for a parameter read from the parameter store, and the
 * policy that applies them in order, stopping at the first rule that fails.
 */
module SsmVarPolicy {
  import opened Base
  import Text

  /** The three rules of the policy; the parameter is `None` when the store gave no value. */
  datatype Rule = NotEmpty | NotUndefined | CommaSeparated

  /**
   * The language of `/^[^,]+(,[^,]+)*$/`: one or more non-empty runs of
   * non-comma characters, separated by single commas.
   */
  predicate InCommaList(s: string)
    decreases |s|
  {
    && |s| > 0
    && s[0] != ','
    && (|s| == 1 || (if s[1] == ',' then InCommaList(s[2..]) else InCommaList(s[1..])))
  }

  /** Whether `value` passes `rule`. */
  predicate Check(rule: Rule, value: Option<string>) {
    match rule
    case NotEmpty => value != Some("")
    case NotUndefined => value.Some?
    case CommaSeparated => value.Some? && value.value != "" && InCommaList(value.value)
  }

  /** Every rule in order, stopping at the first one that fails. */
  predicate AllRulesPass(rules: seq<Rule>, value: Option<string>) {
    |rules| == 0 || (Check(rules[0], value) && AllRulesPass(rules[1..], value))
  }

  /**
   * `checkAllRule`: evaluates the rules in order and returns at the first
   * failure; `evaluated` counts the rules it ran.
   */
  method CheckAllRule(rules: seq<Rule>, value: Option<string>) returns (ok: bool, evaluated: nat)
    ensures ok <==> forall j :: 0 <= j < |rules| ==> Check(rules[j], value)
    ensures ok ==> evaluated == |rules|
    ensures !ok ==> 0 < evaluated <= |rules| && !Check(rules[evaluated - 1], value)
    ensures forall j :: 0 <= j < evaluated - 1 ==> Check(rules[j], value)
  {
    evaluated := 0;
    while evaluated < |rules|
      invariant evaluated <= |rules|
      invariant forall j :: 0 <= j < evaluated ==> Check(rules[j], value)
    {
      if !Check(rules[evaluated], value) {
        evaluated := evaluated + 1;
        return false, evaluated;
      }
      evaluated := evaluated + 1;
    }
    ok := true;
  }

  /** The short-circuit predicate agrees with "every rule holds". */
  lemma {:induction false} AllRulesPassIffEvery(rules: seq<Rule>, value: Option<string>)
    ensures AllRulesPass(rules, value) <==> forall j :: 0 <= j < |rules| ==> Check(rules[j], value)
  {
    if |rules| > 0 {
      AllRulesPassIffEvery(rules[1..], value);
      assert forall j :: 1 <= j < |rules| ==> rules[j] == rules[1..][j - 1];
    }
  }

  /** The rules of `CategoryListValidationPolicy`, in order. */
  const CATEGORY_LIST_RULES: seq<Rule> := [NotEmpty, NotUndefined, CommaSeparated]

  /**
   * `checkCategoryList`: every rule of the list accepts the value; the first
   * two rules add nothing, so the policy accepts exactly what the comma rule
   * accepts.
   */
  predicate CheckCategoryList(value: Option<string>)
    ensures CheckCategoryList(value) <==> forall j :: 0 <= j < |CATEGORY_LIST_RULES| ==> Check(CATEGORY_LIST_RULES[j], value)
    ensures CheckCategoryList(value) <==> Check(CommaSeparated, value)
  {
    AllRulesPassIffEvery(CATEGORY_LIST_RULES, value);
    assert CATEGORY_LIST_RULES[0] == NotEmpty;
    assert CATEGORY_LIST_RULES[1] == NotUndefined;
    assert CATEGORY_LIST_RULES[2] == CommaSeparated;
    AllRulesPass(CATEGORY_LIST_RULES, value)
  }

  /** Appending a piece after a comma keeps a string in the comma language. */
  lemma {:induction false} InCommaListAppend(a: string, b: string)
    requires InCommaList(a) && InCommaList(b)
    ensures InCommaList(a + [','] + b)
    decreases |a|
  {
    var s := a + [','] + b;
    if |a| == 1 {
      assert s[1] == ',' && s[2..] == b;
    } else if a[1] == ',' {
      assert s[1] == ',';
      InCommaListAppend(a[2..], b);
      assert s[2..] == a[2..] + [','] + b;
    } else {
      InCommaListAppend(a[1..], b);
      assert s[1..] == a[1..] + [','] + b;
    }
  }

  /** A string without commas is in the language exactly when it is non-empty. */
  lemma {:induction false} CommaFreeInList(s: string)
    requires ',' !in s && |s| > 0
    ensures InCommaList(s)
    decreases |s|
  {
    if |s| > 1 {
      assert s[1] in s;
      assert ',' !in s[1..] by {
        forall k | 0 <= k < |s[1..]| ensures s[1..][k] != ',' {
          assert s[1..][k] == s[k + 1];
        }
      }
      CommaFreeInList(s[1..]);
    }
  }

  /** No piece of a split is the empty string. */
  predicate NoEmptyPiece(pieces: seq<string>) {
    forall k :: 0 <= k < |pieces| ==> pieces[k] != ""
  }

  lemma NoEmptyPieceCons(x: string, t: seq<string>)
    ensures NoEmptyPiece([x] + t) <==> x != "" && NoEmptyPiece(t)
  {
    if x != "" && NoEmptyPiece(t) {
      forall k | 0 <= k < |[x] + t| ensures ([x] + t)[k] != "" {
        if k > 0 { assert ([x] + t)[k] == t[k - 1]; }
      }
    }
    if NoEmptyPiece([x] + t) {
      assert ([x] + t)[0] == x;
      forall k | 0 <= k < |t| ensures t[k] != "" {
        assert t[k] == ([x] + t)[k + 1];
      }
    }
  }

  /**
   * `/^[^,]+(,[^,]+)*$/` accepts a string exactly when splitting it on ","
   * yields no empty piece: no leading, trailing or doubled comma.
   */
  lemma {:induction false} CommaListIffNonEmptyPieces(s: string)
    ensures InCommaList(s) <==> NoEmptyPiece(Text.Split(s, ','))
    decreases |s|
  {
    var r := Text.Split(s, ',');
    if |s| == 0 {
      assert r == [""];
      NoEmptyPieceCons("", []);
    } else {
      var rest := Text.Split(s[1..], ',');
      if s[0] == ',' {
        assert r == [""] + rest;
        NoEmptyPieceCons("", rest);
      } else if |s| == 1 {
        assert s[1..] == [];
        assert rest == [""];
        assert r == [[s[0]] + ""] + [];
        assert [s[0]] + "" == [s[0]];
        NoEmptyPieceCons([s[0]], []);
      } else if s[1] == ',' {
        var rest2 := Text.Split(s[2..], ',');
        CommaListIffNonEmptyPieces(s[2..]);
        assert s[1..][1..] == s[2..];
        assert rest == [""] + rest2;
        assert r == [[s[0]] + ""] + rest2;
        assert [s[0]] + "" == [s[0]];
        NoEmptyPieceCons([s[0]], rest2);
      } else {
        CommaListIffNonEmptyPieces(s[1..]);
        var rest1 := Text.Split(s[2..], ',');
        assert s[1..][1..] == s[2..];
        assert rest == [[s[1]] + rest1[0]] + rest1[1..];
        assert r == [[s[0]] + rest[0]] + rest[1..];
        assert rest == [rest[0]] + rest[1..];
        NoEmptyPieceCons([s[0]] + rest[0], rest[1..]);
        NoEmptyPieceCons(rest[0], rest[1..]);
      }
    }
  }

  /**
   * A value the policy accepts splits into non-empty comma-free names that
   * join back to the value; white space is not trimmed, so " , " passes.
   */
  lemma AcceptedListRoundTrips(s: string)
    requires CheckCategoryList(Some(s))
    ensures NoEmptyPiece(Text.Split(s, ','))
    ensures forall k :: 0 <= k < |Text.Split(s, ',')| ==> ',' !in Text.Split(s, ',')[k]
    ensures Text.Join(Text.Split(s, ','), ",") == s
  {
    CommaListIffNonEmptyPieces(s);
    Text.SplitPiecesAvoidSeparator(s, ',');
    Text.JoinSplit(s, ',');
  }

  /** Blank names between commas are accepted; only empty ones are rejected. */
  lemma BlankNamesAccepted()
    ensures CheckCategoryList(Some(" , "))
    ensures !CheckCategoryList(Some("a,,b"))
    ensures !CheckCategoryList(Some("a,"))
    ensures !CheckCategoryList(None)
    ensures !CheckCategoryList(Some(""))
  {
    CommaFreeInList(" ");
    InCommaListAppend(" ", " ");
    assert " " + [','] + " " == " , ";
    CommaListIffNonEmptyPieces("a,,b");
    assert Text.Split("a,,b", ',')[1] == "";
    assert !NoEmptyPiece(Text.Split("a,,b", ','));
    CommaListIffNonEmptyPieces("a,");
    assert Text.Split("a,", ',')[1] == "";
    assert !NoEmptyPiece(Text.Split("a,", ','));
  }
}
