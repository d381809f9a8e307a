/** The two field validators of the endpoint: the e-mail address pattern and
    the audio upload check. */
module Validate {
  import opened Wrappers
  import opened Text
  import opened Js

  /** A character of the class `[^\s@]`. */
  predicate IsAddressChar(c: char) {
    !IsJsWhitespace(c) && c != '@'
  }

  /** A non-empty run of `[^\s@]`, i.e. `[^\s@]+`. */
  predicate IsAddressRun(s: string) {
    |s| > 0 && forall i | 0 <= i < |s| :: IsAddressChar(s[i])
  }

  /** `/^[^\s@]+@[^\s@]+\.[^\s@]+$/.test(s)`: `s` splits into a run, '@', a
      run, '.', and a run. */
  predicate IsValidEmail(s: string) {
    exists at, dot | 0 < at < dot < |s| ::
      && s[at] == '@'
      && s[dot] == '.'
      && IsAddressRun(s[..at])
      && IsAddressRun(s[at + 1..dot])
      && IsAddressRun(s[dot + 1..])
  }

  /** The text after the '@' contains a '.' with at least one character on
      either side of it. */
  predicate HasInnerDot(r: string) {
    exists j | 0 < j < |r| - 1 :: r[j] == '.'
  }

  predicate NoWhitespace(s: string) {
    forall i | 0 <= i < |s| :: !IsJsWhitespace(s[i])
  }

  /** Position `at` holds the only '@' of `s`. */
  predicate OnlyAtSignAt(s: string, at: int) {
    0 <= at < |s| && s[at] == '@' && forall i | 0 <= i < |s| && s[i] == '@' :: i == at
  }

  /** L@R with L non-empty and a '.' inside R. */
  predicate SplitsAsAddress(s: string, at: int) {
    0 < at < |s| && OnlyAtSignAt(s, at) && HasInnerDot(s[at + 1..])
  }

  lemma ShapeOfValidEmail(s: string)
    requires IsValidEmail(s)
    ensures NoWhitespace(s) && exists at :: SplitsAsAddress(s, at)
  {
    var at, dot :| 0 < at < dot < |s| && s[at] == '@' && s[dot] == '.'
      && IsAddressRun(s[..at]) && IsAddressRun(s[at + 1..dot]) && IsAddressRun(s[dot + 1..]);
    forall i | 0 <= i < |s| && i != at && i != dot
      ensures IsAddressChar(s[i])
    {
      if i < at {
        assert s[i] == s[..at][i];
      } else if i < dot {
        assert s[i] == s[at + 1..dot][i - at - 1];
      } else {
        assert s[i] == s[dot + 1..][i - dot - 1];
      }
    }
    assert s[at + 1..][dot - at - 1] == '.';
    assert SplitsAsAddress(s, at);
  }

  lemma ValidEmailOfShape(s: string, at: int)
    requires NoWhitespace(s) && SplitsAsAddress(s, at)
    ensures IsValidEmail(s)
  {
  }

  /** The pattern accepts exactly the strings L@R without whitespace anywhere,
      with a single '@', L non-empty, and a '.' inside R that has text on both
      sides. */
  lemma ValidEmailShape(s: string)
    ensures IsValidEmail(s) <==> NoWhitespace(s) && exists at :: SplitsAsAddress(s, at)
  {
    if IsValidEmail(s) {
      ShapeOfValidEmail(s);
    }
    if NoWhitespace(s) && exists at :: SplitsAsAddress(s, at) {
      var at :| SplitsAsAddress(s, at);
      ValidEmailOfShape(s, at);
    }
  }

  /** The sample addresses: a full address is accepted; one without a dot
      after the '@', or without an '@', is not. */
  lemma EmailSamples()
    ensures IsValidEmail("a@b.co")
    ensures !IsValidEmail("a@b")
    ensures !IsValidEmail("no-at-sign")
    ensures !IsValidEmail("a b@c.de")
    ensures !IsValidEmail("a@b@c.de")
  {
    var s := "a@b.co";
    assert s[1] == '@' && s[3] == '.';
    assert IsAddressRun(s[..1]) && IsAddressRun(s[2..3]) && IsAddressRun(s[4..]);
    ValidEmailShape("a b@c.de");
    var twoAts := "a@b@c.de";
    ValidEmailShape(twoAts);
    assert twoAts[1] == '@' && twoAts[3] == '@';
    assert "a b@c.de"[1] == ' ';
  }

  /** Which request values `isValidEmail` can accept once `test` has converted
      them to strings: only strings and arrays (numbers, booleans, null and
      plain objects never convert to an address). A plain object's conversion
      throws exactly when the object has its own key "toString". An array
      holding one string converts to that string, so `["a@b.co"]` passes. */
  lemma EmailCoercion(v: Json, s: string)
    ensures ToJsString(v).Some? && IsValidEmail(ToJsString(v).value) ==> v.JStr? || v.JArr?
    ensures v.JObj? ==> (ToJsString(v).None? <==> "toString" in v.fields)
    ensures ToJsString(JArr([JStr(s)])) == Some(s)
  {
    if v.JNum? {
      var t := v.text;
      assert !IsNumberChar('@');
      assert forall i | 0 <= i < |t| :: t[i] != '@' by {
        forall i | 0 <= i < |t| ensures t[i] != '@' {
          assert IsNumberChar(t[i]);
        }
      }
    }
    if v.JObj? && "toString" !in v.fields {
      var t := "[object Object]";
      assert t[7] == ' ';
      ValidEmailShape(t);
    }
    assert [JStr(s)][1..] == [];
    assert ElementText(JStr(s)) == Some(s);
    assert JoinItems([JStr(s)]) == Some(s + "" + "");
    assert s + "" + "" == s;
  }

  /** A number's string form can supply the dot the pattern needs: the array
      `["a@b", 1.5e21]` converts to "a@b,1.5e+21", ... */
  lemma NumberArrayConversion()
    ensures ToJsString(JArr([JStr("a@b"), JNum("1.5e+21")])) == Some("a@b,1.5e+21")
  {
    var items := [JStr("a@b"), JNum("1.5e+21")];
    var last := [JNum("1.5e+21")];
    assert last[1..] == [];
    assert JoinItems(last) == Some("1.5e+21" + "" + "");
    assert "1.5e+21" + "" + "" == "1.5e+21";
    assert items[1..] == last;
    assert JoinItems(items) == Some("a@b" + "," + "1.5e+21");
    assert "a@b" + "," + "1.5e+21" == "a@b,1.5e+21";
  }

  /** ... which the pattern accepts. */
  lemma NumberSuppliesDot()
    ensures IsValidEmail("a@b,1.5e+21")
  {
    var e := "a@b,1.5e+21";
    assert e[1] == '@' && e[5] == '.';
    assert e[..1] == "a" && e[2..5] == "b,1" && e[6..] == "5e+21";
    assert IsAddressRun("a") && IsAddressRun("b,1") && IsAddressRun("5e+21");
  }

  /** A file entry of the parsed multipart form: its property names, its
      declared MIME type, its original file name and its temporary path. */
  datatype Upload = Upload(
    keys: set<string>,
    mimetype: Option<string>,
    originalFilename: Option<string>,
    filepath: string)

  /** `isValidUpload(upload)`; `None` is an absent file (`undefined`). */
  function IsValidUpload(upload: Option<Upload>): (ok: bool)
    ensures ok <==>
      upload.Some? && upload.value.keys != {} && upload.value.mimetype == Some("audio/mpeg")
  {
    && upload.Some?                                 // typeof upload === 'object'
    && |upload.value.keys| > 0                      // Object.keys(upload).length > 0
    && upload.value.mimetype.Some?                  // upload.mimetype is truthy
    && upload.value.mimetype.value != ""
    && upload.value.mimetype.value == "audio/mpeg"
  }
}
