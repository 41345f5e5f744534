/**
 * The refresh delay computed from the `cache-control` header of the key-set response
 * (server/server.js:252-259): the header is split on `,`, the second directive on `=`,
 * the text after the first `=` goes through `parseInt`, and the result times 1000 is
 * handed to `setTimeout`.
 */
module CacheControl {
  import opened Wrappers
  import opened Text

  /** How the refresh callback ends once the keys are stored. */
  datatype Schedule =
    | Thrown         // the header, or its second directive, is missing: `.split` on undefined throws, uncaught
    | NaNDelay       // `setTimeout` is called with NaN (no `=` in the directive, or no digits after it)
    | After(ms: int) // `setTimeout` is called with this many milliseconds

  /**
   * The outcome of lines 254-259 for the response's `cache-control` header (None when the
   * response has none). The callback throws exactly when there is no header or it holds
   * no comma, and a delay that is a number is a whole number of seconds.
   */
  function RefreshDelay(cacheControl: Option<string>): (r: Schedule)
    ensures r == Thrown <==> cacheControl.None? || ',' !in cacheControl.value
    ensures r.After? ==> r.ms % 1000 == 0
  {
    match cacheControl
    case None => Thrown
    case Some(header) =>
      SplitSingle(header, ',');
      var values := Split(header, ',');
      if |values| < 2 then Thrown
      else
        var pair := Split(values[1], '=');
        // `parseInt(undefined)` reads the text "undefined": NaN
        if |pair| < 2 then NaNDelay
        else match ParseInt(pair[1])
          case None => NaNDelay
          case Some(seconds) => After(seconds * 1000)
  }

  /** A string splits into exactly one piece if and only if it holds no separator. */
  lemma SplitSingle(s: string, sep: char)
    ensures |Split(s, sep)| == 1 <==> sep !in s
  {
    if sep !in s {
      SplitJoin([s], sep);
    }
  }

  /** The first piece of a split starts where the string does, unless it is empty. */
  lemma SplitFirstStart(s: string, sep: char)
    ensures Split(s, sep)[0] == [] || (|s| > 0 && Split(s, sep)[0][0] == s[0])
  {
  }

  /** The text after the first `=` of a directive, up to any further `=`. */
  lemma {:induction false} ValueAfterEquals(name: string, value: string)
    requires '=' !in name
    ensures |Split(name + "=" + value, '=')| >= 2
    ensures Split(name + "=" + value, '=')[1] == Split(value, '=')[0]
  {
    var after := "=" + value;
    assert name + "=" + value == name + after;
    SplitPrefix(name, after, '=');
    assert after[0] == '=' && after[1..] == value;
    assert Split(after, '=') == [""] + Split(value, '=');
  }

  /**
   * Whatever the directives are called, the delay is 1000 times the decimal number that
   * follows the first `=` of the SECOND directive, as long as a non-digit (or the end of
   * the directive) follows that number.
   */
  lemma {:induction false} DelayFromSecondDirective(directives: seq<string>, name: string, seconds: nat, rest: string)
    requires |directives| >= 2
    requires forall i :: 0 <= i < |directives| ==> ',' !in directives[i]
    requires '=' !in name
    requires directives[1] == name + "=" + (Decimal(seconds) + rest)
    requires rest == [] || !IsDigitIn(rest[0], 10)
    requires seconds == 0 ==> rest == [] || (rest[0] != 'x' && rest[0] != 'X')
    ensures RefreshDelay(Some(Join(directives, ','))) == After(1000 * seconds)
  {
    var d := Decimal(seconds);
    var t := Split(rest, '=')[0];
    assert Split(Join(directives, ','), ',') == directives by {
      SplitJoin(directives, ',');
    }
    assert Split(directives[1], '=')[1] == d + t by {
      ValueAfterEquals(name, d + rest);
      DecimalDigits(seconds);
      assert '=' !in d by {
        forall i | 0 <= i < |d| ensures d[i] != '=' {
          assert IsDigitIn(d[i], 10);
        }
      }
      SplitPrefix(d, rest, '=');
    }
    assert ParseInt(d + t) == Some(seconds as int) by {
      SplitFirstStart(rest, '=');
      ParseIntOfDecimal(seconds, t);
    }
  }

  lemma Decimal24497()
    ensures Decimal(24497) == "24497"
  {
    assert Decimal(24497) == Decimal(2449) + "7";
    assert Decimal(2449) == Decimal(244) + "9";
    assert Decimal(244) == Decimal(24) + "4";
    assert Decimal(24) == Decimal(2) + "4";
  }

  /**
   * The example header quoted beside the parsing code,
   * `public, max-age=24497, must-revalidate, no-transform`, gives 24497 seconds.
   */
  lemma SourceExampleDelay()
    ensures RefreshDelay(Some(Join(["public", " max-age=24497", " must-revalidate", " no-transform"], ',')))
         == After(24497000)
  {
    var directives := ["public", " max-age=24497", " must-revalidate", " no-transform"];
    Decimal24497();
    assert directives[1] == " max-age" + "=" + (Decimal(24497) + "");
    DelayFromSecondDirective(directives, " max-age", 24497, "");
  }

  /** A second directive without `=` leaves `parseInt` nothing to read: the delay is NaN. */
  lemma {:induction false} NoValueInSecondDirective(directives: seq<string>)
    requires |directives| >= 2
    requires forall i :: 0 <= i < |directives| ==> ',' !in directives[i]
    requires '=' !in directives[1]
    ensures RefreshDelay(Some(Join(directives, ','))) == NaNDelay
  {
    SplitJoin(directives, ',');
    SplitSingle(directives[1], '=');
  }

  /** A `max-age` that is not the second directive is not found: the delay is NaN. */
  lemma MaxAgeFirstIsNaN()
    ensures RefreshDelay(Some(Join(["max-age=3600", " public"], ','))) == NaNDelay
  {
    NoValueInSecondDirective(["max-age=3600", " public"]);
  }
}
