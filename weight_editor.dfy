/** The weight editor view: it loads the user's per-role weights, lets the
    user pick a role, edit its fields and save them. The view's state is a
    class whose handlers update it in place; the two service calls are
    parameters (their outcome), and every call made is appended to
    `calls`. */
module WeightEditor {
  import opened Values
  import opened WeightSum

  /** JavaScript's `parseInt(value, 10) || 0` on an input's text: skip
      leading white space, read an optional sign and the longest run of
      decimal digits after it; no digits (NaN) and zero both give 0. */
  function ParseIntOrZero(s: string): (n: int)
    ensures (n != 0) ==> |DigitRun(SignedPart(s))| > 0
  {
    var body := SignedPart(s);
    var digits := DigitRun(body);
    if digits == [] then 0
    else if Negative(s) then -(DigitsValue(digits) as int)
    else DigitsValue(digits)
  }

  /** The white space and line terminators that `parseInt` skips. */
  predicate IsJsSpace(c: char)
  {
    || c == ' ' || c == '\t' || c == '\n' || c == '\r' || c == '\U{B}' || c == '\U{C}' || c == '\U{A0}'
    || c == '\U{FEFF}' || c == '\U{1680}' || ('\U{2000}' <= c <= '\U{200A}')
    || c == '\U{2028}' || c == '\U{2029}' || c == '\U{202F}' || c == '\U{205F}' || c == '\U{3000}'
  }

  function SkipSpaces(s: string): string
  {
    if s != [] && IsJsSpace(s[0]) then SkipSpaces(s[1..]) else s
  }

  /** Skipping leaves a suffix of the text that starts with something
      other than white space. */
  lemma {:induction false} SkipSpacesShape(s: string)
    ensures var r := SkipSpaces(s);
      |r| <= |s| && r == s[|s| - |r|..] && (r != [] ==> !IsJsSpace(r[0]))
  {
    if s != [] && IsJsSpace(s[0]) {
      SkipSpacesShape(s[1..]);
    }
  }

  predicate Negative(s: string)
  {
    var t := SkipSpaces(s); t != [] && t[0] == '-'
  }

  /** The text after the white space and the sign. */
  function SignedPart(s: string): string
  {
    var t := SkipSpaces(s);
    if t != [] && (t[0] == '-' || t[0] == '+') then t[1..] else t
  }

  predicate IsDigit(c: char)
  {
    '0' <= c <= '9'
  }

  /** The longest prefix made of digits. */
  function DigitRun(s: string): (d: string)
    ensures |d| <= |s| && d == s[..|d|]
    ensures forall k :: 0 <= k < |d| ==> IsDigit(d[k])
    ensures |d| < |s| ==> !IsDigit(s[|d|])
  {
    if s != [] && IsDigit(s[0]) then [s[0]] + DigitRun(s[1..]) else []
  }

  /** The number a run of digits denotes, read left to right. */
  function DigitsValue(d: string): (v: nat)
    requires forall k :: 0 <= k < |d| ==> IsDigit(d[k])
  {
    if d == [] then 0 else DigitsValue(d[..|d| - 1]) * 10 + DigitValue(d[|d| - 1])
  }

  function DigitValue(c: char): nat
    requires IsDigit(c)
  {
    c as int - '0' as int
  }

  /** The decimal text of a natural number, as an input field shows it. */
  function NatText(n: nat): (s: string)
    ensures s != [] && forall k :: 0 <= k < |s| ==> IsDigit(s[k])
  {
    var last := [('0' as int + n % 10) as char];
    if n < 10 then last else NatText(n / 10) + last
  }

  /** Reading a number's digits gives the number back. */
  lemma {:induction false} DigitsValueNatText(n: nat)
    ensures DigitsValue(NatText(n)) == n
  {
    var s := NatText(n);
    if n >= 10 {
      DigitsValueNatText(n / 10);
      assert s[..|s| - 1] == NatText(n / 10);
    }
  }

  /** The text of an integer, with a minus sign when negative. */
  function IntText(n: int): string
  {
    if n < 0 then "-" + NatText(-n) else NatText(n)
  }

  /** Whatever integer the field shows, a weight edit stores that integer. */
  lemma ParseIntText(n: int)
    ensures ParseIntOrZero(IntText(n)) == n
  {
    var m := if n < 0 then -n else n;
    var digits := NatText(m);
    DigitRunWhole(digits);
    DigitsValueNatText(m);
    if n < 0 {
      MinusDigits(digits);
    } else {
      DigitFirst(digits);
    }
  }

  /** A minus sign followed by digits: the digits are read, negated. */
  lemma MinusDigits(digits: string)
    requires digits != [] && IsDigit(digits[0])
    ensures SignedPart("-" + digits) == digits && Negative("-" + digits)
  {
    var s := "-" + digits;
    assert s[0] == '-' && !IsJsSpace(s[0]);
    assert SkipSpaces(s) == s;
    assert s[1..] == digits;
  }

  lemma {:induction false} DigitRunWhole(d: string)
    requires forall k :: 0 <= k < |d| ==> IsDigit(d[k])
    ensures DigitRun(d) == d
  {
    if d != [] {
      DigitRunWhole(d[1..]);
    }
  }

  /** A text with no digit after its white space and sign reads as 0. */
  lemma NoDigitsIsZero(s: string)
    requires SignedPart(s) == [] || !IsDigit(SignedPart(s)[0])
    ensures ParseIntOrZero(s) == 0
  {
  }

  /** Digits followed by other text: only the leading digits count. */
  lemma TrailingTextIgnored(d: string, rest: string)
    requires d != [] && forall k :: 0 <= k < |d| ==> IsDigit(d[k])
    requires rest == [] || !IsDigit(rest[0])
    ensures ParseIntOrZero(d + rest) == DigitsValue(d)
  {
    var s := d + rest;
    assert s[0] == d[0];
    DigitFirst(s);
    DigitRunPrefix(d, rest);
  }

  /** A text that starts with a digit has no white space or sign to skip. */
  lemma DigitFirst(s: string)
    requires s != [] && IsDigit(s[0])
    ensures SignedPart(s) == s && !Negative(s)
  {
    assert SkipSpaces(s) == s;
  }

  lemma {:induction false} DigitRunPrefix(d: string, rest: string)
    requires forall k :: 0 <= k < |d| ==> IsDigit(d[k])
    requires rest == [] || !IsDigit(rest[0])
    ensures DigitRun(d + rest) == d
  {
    if d != [] {
      assert (d + rest)[1..] == d[1..] + rest;
      DigitRunPrefix(d[1..], rest);
    }
  }

  /** ASCII `toUpperCase()`. */
  function UpperChar(c: char): char
  {
    if 'a' <= c <= 'z' then (c as int - 32) as char else c
  }

  /** A character `\w` matches. */
  predicate IsWordChar(c: char)
  {
    ('a' <= c <= 'z') || ('A' <= c <= 'Z') || IsDigit(c) || c == '_'
  }

  /** `s.replace(c, d)` with a string pattern: only the first occurrence. */
  function ReplaceFirst(s: string, c: char, d: char): (r: string)
    ensures |r| == |s|
    ensures c !in s ==> r == s
  {
    if s == [] then []
    else if s[0] == c then [d] + s[1..]
    else [s[0]] + ReplaceFirst(s[1..], c, d)
  }

  /** Only the first occurrence changes: before it the text is kept, it
      becomes `d`, and everything after it is kept, later occurrences
      included. */
  lemma {:induction false} ReplaceFirstShape(s: string, c: char, d: char, i: nat)
    requires i < |s| && s[i] == c && c !in s[..i]
    ensures ReplaceFirst(s, c, d) == s[..i] + [d] + s[i + 1..]
  {
    if i > 0 {
      assert s[0] in s[..i];
      assert c !in s[1..][..i - 1] by { assert s[1..][..i - 1] == s[..i][1..]; }
      ReplaceFirstShape(s[1..], c, d, i - 1);
    }
  }

  /** `.replace(/\b\w/g, c => c.toUpperCase())`: every word character that
      starts a word is upper-cased. */
  function CapitalizeWords(s: string): (r: string)
    ensures |r| == |s|
  {
    seq(|s|, i requires 0 <= i < |s| =>
      if IsWordChar(s[i]) && (i == 0 || !IsWordChar(s[i - 1])) then UpperChar(s[i]) else s[i])
  }

  /** The label of a role in the role menu. */
  function RoleLabel(role: string): (text: string)
    ensures |text| == |role|
  {
    CapitalizeWords(ReplaceFirst(role, '_', ' '))
  }

  /** Only the first underscore becomes a space: any later one is kept in
      the label, so the word after it is not capitalised either. */
  lemma SecondUnderscoreKept(a: string, b: string, j: nat)
    requires '_' !in a && j < |b| && b[j] == '_'
    ensures RoleLabel(a + "_" + b)[|a| + 1 + j] == '_'
    ensures j + 1 < |b| ==> RoleLabel(a + "_" + b)[|a| + 2 + j] == b[j + 1]
  {
    var role := a + "_" + b;
    assert role[..|a|] == a;
    ReplaceFirstShape(role, '_', ' ', |a|);
    var replaced := ReplaceFirst(role, '_', ' ');
    assert replaced[|a| + 1 + j] == b[j];
    if j + 1 < |b| {
      assert replaced[|a| + 2 + j] == b[j + 1];
    }
  }

  /** A role made of two lower-case words joined by one underscore, such as
      "senior_engineer", is labelled with both words capitalised and a space
      between them ("Senior Engineer"). */
  lemma TwoWordRoleLabel(a: string, b: string)
    requires a != [] && b != []
    requires forall k :: 0 <= k < |a| ==> 'a' <= a[k] <= 'z'
    requires forall k :: 0 <= k < |b| ==> 'a' <= b[k] <= 'z'
    ensures RoleLabel(a + "_" + b) == [UpperChar(a[0])] + a[1..] + " " + [UpperChar(b[0])] + b[1..]
  {
    var role := a + "_" + b;
    assert role[..|a|] == a;
    ReplaceFirstShape(role, '_', ' ', |a|);
    assert ReplaceFirst(role, '_', ' ') == a + " " + b;
    CapitalizeTwoWords(a, b);
  }

  /** Capitalising two lower-case words separated by a space upper-cases
      the first letter of each and keeps the rest. */
  lemma CapitalizeTwoWords(a: string, b: string)
    requires a != [] && b != []
    requires forall k :: 0 <= k < |a| ==> 'a' <= a[k] <= 'z'
    requires forall k :: 0 <= k < |b| ==> 'a' <= b[k] <= 'z'
    ensures CapitalizeWords(a + " " + b) == [UpperChar(a[0])] + a[1..] + " " + [UpperChar(b[0])] + b[1..]
  {
    var t := a + " " + b;
    var got := CapitalizeWords(t);
    var want := [UpperChar(a[0])] + a[1..] + " " + [UpperChar(b[0])] + b[1..];
    forall i | 0 <= i < |t|
      ensures got[i] == want[i]
    {
      if i < |a| {
        assert t[i] == a[i];
        if i > 0 {
          assert t[i - 1] == a[i - 1];
          assert want[i] == a[i];
        }
      } else if i == |a| {
        assert t[i] == ' ';
      } else {
        var k := i - |a| - 1;
        assert t[i] == b[k];
        if k > 0 {
          assert t[i - 1] == b[k - 1];
          assert want[i] == b[k];
        } else {
          assert t[i - 1] == ' ';
          assert want[i] == UpperChar(b[0]);
        }
      }
    }
  }

  /** The label of a weight field: its first character upper-cased. */
  function FieldLabel(field: string): (text: string)
    ensures |text| == |field|
    ensures field != [] ==> text[0] == UpperChar(field[0]) && text[1..] == field[1..]
  {
    if field == [] then [] else [UpperChar(field[0])] + field[1..]
  }

  /** Labelling is idempotent, and a field that does not start with a
      lower-case letter is shown as it is. */
  lemma FieldLabelStable(field: string)
    ensures FieldLabel(FieldLabel(field)) == FieldLabel(field)
    ensures field != [] && !('a' <= field[0] <= 'z') ==> FieldLabel(field) == field
  {
    if field != [] {
      var c := field[0];
      assert !('a' <= UpperChar(c) <= 'z');
      assert FieldLabel(field) == [UpperChar(c)] + field[1..];
      if !('a' <= c <= 'z') {
        assert [c] + field[1..] == field;
      }
    }
  }

  datatype Severity = Error | Success
  datatype Message = Message(severity: Severity, text: string)

  /** The service calls the view makes. */
  datatype Call = FetchWeights | UpdateWeights(role: string, weights: map<string, int>)

  const DefaultRole: string := "fresher"
  const LoadFailed: Message := Message(Error, "Failed to load weights.")
  const SumError: Message := Message(Error, "Weights must sum up to 100.")
  const Updated: Message := Message(Success, "Weights updated successfully.")
  const UpdateFailed: Message := Message(Error, "Failed to update weights.")

  /** The stored map for a role, or `{}`. */
  function WeightsOf(data: map<string, map<string, int>>, role: string): map<string, int>
  {
    if role in data then data[role] else map[]
  }

  class Editor {
    var weightsData: map<string, map<string, int>>
    var selectedRole: string
    var currentWeights: map<string, int>
    var loading: bool
    var message: Option<Message>
    var calls: seq<Call>

    /** The initial state: nothing loaded, "fresher" selected, loading. */
    constructor ()
      ensures weightsData == map[] && selectedRole == DefaultRole && currentWeights == map[]
      ensures loading && message.None? && calls == []
    {
      weightsData := map[];
      selectedRole := DefaultRole;
      currentWeights := map[];
      loading := true;
      message := None;
      calls := [];
    }

    /** `loadWeights`. `response` is the fetch's outcome: the reply's
        `weights` (None when absent), or a failure. Loading ends either
        way. */
    method LoadWeights(response: Result<Option<map<string, map<string, int>>>, string>)
      modifies this
      ensures calls == old(calls) + [FetchWeights] && !loading
      ensures response.Ok? ==>
        && weightsData == (if response.value.Some? then response.value.value else map[])
        && selectedRole == DefaultRole
        && currentWeights == WeightsOf(weightsData, DefaultRole)
        && message == old(message)
      ensures response.Err? ==>
        && weightsData == old(weightsData) && selectedRole == old(selectedRole)
        && currentWeights == old(currentWeights) && message == Some(LoadFailed)
    {
      calls := calls + [FetchWeights];
      if response.Ok? {
        weightsData := if response.value.Some? then response.value.value else map[];
        selectedRole := DefaultRole;
        currentWeights := WeightsOf(weightsData, DefaultRole);
      } else {
        message := Some(LoadFailed);
      }
      loading := false;
    }

    /** `handleRoleChange`: show the stored weights of the chosen role. */
    method HandleRoleChange(role: string)
      modifies this
      ensures selectedRole == role && currentWeights == WeightsOf(weightsData, role) && message.None?
      ensures weightsData == old(weightsData) && loading == old(loading) && calls == old(calls)
    {
      selectedRole := role;
      currentWeights := WeightsOf(weightsData, role);
      message := None;
    }

    /** `handleWeightChange`: only the edited field changes, and the sum
        moves by the difference. */
    method HandleWeightChange(field: string, value: string)
      modifies this
      ensures currentWeights == old(currentWeights)[field := ParseIntOrZero(value)]
      ensures SumValues(currentWeights) ==
        SumValues(old(currentWeights)) - (if field in old(currentWeights) then old(currentWeights)[field] else 0) + ParseIntOrZero(value)
      ensures message.None?
      ensures weightsData == old(weightsData) && selectedRole == old(selectedRole)
      ensures loading == old(loading) && calls == old(calls)
    {
      var weight := ParseIntOrZero(value);
      SumValuesUpdate(currentWeights, field, weight);
      currentWeights := currentWeights[field := weight];
      message := None;
    }

    /** `handleUpdate`. `outcome` is what the update call does. Weights
        that do not add up to 100 are refused before any call; otherwise
        the stored map of the selected role, and only that one, becomes
        the edited weights when the call succeeds. */
    method HandleUpdate(outcome: Outcome<string>)
      modifies this
      ensures selectedRole == old(selectedRole) && currentWeights == old(currentWeights) && loading == old(loading)
      ensures SumValues(currentWeights) != 100 ==>
        && message == Some(SumError) && calls == old(calls) && weightsData == old(weightsData)
      ensures SumValues(currentWeights) == 100 ==>
        && calls == old(calls) + [UpdateWeights(selectedRole, currentWeights)]
        && (outcome.Pass? ==> weightsData == old(weightsData)[selectedRole := currentWeights] && message == Some(Updated))
        && (outcome.Fail? ==> weightsData == old(weightsData) && message == Some(UpdateFailed))
    {
      var total := Total(currentWeights);
      if total != 100 {
        message := Some(SumError);
        return;
      }
      calls := calls + [UpdateWeights(selectedRole, currentWeights)];
      if outcome.Pass? {
        weightsData := weightsData[selectedRole := currentWeights];
        message := Some(Updated);
      } else {
        message := Some(UpdateFailed);
      }
    }
  }
}
