/** The Latin-script classifier (`is_english`, program.py:173-235) and the
    pass that splits a file's lines by it (`test_file`, program.py:282-301). */
module Latin {
  import opened Seqs
  import opened Text

  /** Python's `string.punctuation`: the 32 ASCII punctuation characters. */
  predicate IsPunctuation(c: char) {
    ('!' <= c <= '/') || (':' <= c <= '@') || ('[' <= c <= '`') || ('{' <= c <= '~')
  }

  /** Python's `string.digits`. */
  predicate IsDigit(c: char) {
    '0' <= c <= '9'
  }

  /** Python's `string.ascii_letters`. */
  predicate IsAsciiLetter(c: char) {
    ('a' <= c <= 'z') || ('A' <= c <= 'Z')
  }

  /** Membership in the literal set at program.py:182-227: Latin letters with
      diacritics, then space, right single quote, colon, zero-width space,
      em dash, right double quote and left single quote. */
  predicate IsDiacritic(c: char) {
    || c == 'Á' || c == 'á' || c == 'Ǽ' || c == 'ǽ' || c == 'Ć' || c == 'ć' || c == 'É' || c == 'é' || c == 'Ǵ' || c == 'ǵ'
    || c == 'Í' || c == 'í' || c == 'Ḱ' || c == 'ḱ' || c == 'Ĺ' || c == 'ĺ' || c == 'Ḿ' || c == 'ḿ' || c == 'Ń' || c == 'ń'
    || c == 'Ó' || c == 'ó' || c == 'Ǿ' || c == 'ǿ' || c == 'Ṕ' || c == 'ṕ' || c == 'Ŕ' || c == 'ŕ' || c == 'Ś' || c == 'ś'
    || c == 'Ú' || c == 'ú' || c == 'Ẃ' || c == 'ẃ' || c == 'Ý' || c == 'ý' || c == 'Ź' || c == 'ź' || c == 'Ṥ' || c == 'ṥ'
    || c == 'Ă' || c == 'ă' || c == 'Ĕ' || c == 'ĕ' || c == 'Ğ' || c == 'ğ' || c == 'Ĭ' || c == 'ĭ' || c == 'Ŏ' || c == 'ŏ'
    || c == 'Ŭ' || c == 'ŭ' || c == 'Ắ' || c == 'ắ' || c == 'Ặ' || c == 'ặ' || c == 'Ằ' || c == 'ằ' || c == 'Ẳ' || c == 'ẳ'
    || c == 'Ẵ' || c == 'ẵ' || c == 'Ḫ' || c == 'ḫ' || c == 'Ǎ' || c == 'ǎ' || c == 'Č' || c == 'č' || c == 'Ď' || c == 'ď'
    || c == 'Ě' || c == 'ě' || c == 'Ǧ' || c == 'ǧ' || c == 'Ȟ' || c == 'ȟ' || c == 'Ǐ' || c == 'ǐ' || c == 'ǰ' || c == 'Ǩ'
    || c == 'ǩ' || c == 'Ľ' || c == 'ľ' || c == 'Ň' || c == 'ň' || c == 'Ǒ' || c == 'ǒ' || c == 'Ř' || c == 'ř' || c == 'Š'
    || c == 'š' || c == 'Ť' || c == 'ť' || c == 'Ǔ' || c == 'ǔ' || c == 'Ž' || c == 'ž' || c == 'Ǯ' || c == 'ǯ' || c == 'Ṧ'
    || c == 'ṧ' || c == 'Ç' || c == 'ç' || c == 'Ḑ' || c == 'ḑ' || c == 'Ȩ' || c == 'ȩ' || c == 'Ģ' || c == 'ģ' || c == 'Ḩ'
    || c == 'ḩ' || c == 'Ķ' || c == 'ķ' || c == 'Ļ' || c == 'ļ' || c == 'Ņ' || c == 'ņ' || c == 'Ŗ' || c == 'ŗ' || c == 'Ş'
    || c == 'ş' || c == 'Ţ' || c == 'ţ' || c == 'Ḉ' || c == 'ḉ' || c == 'Ḝ' || c == 'ḝ' || c == 'Â' || c == 'â' || c == 'Ĉ'
    || c == 'ĉ' || c == 'Ê' || c == 'ê' || c == 'Ĝ' || c == 'ĝ' || c == 'Ĥ' || c == 'ĥ' || c == 'Î' || c == 'î' || c == 'Ĵ'
    || c == 'ĵ' || c == 'Ô' || c == 'ô' || c == 'Ŝ' || c == 'ŝ' || c == 'Û' || c == 'û' || c == 'Ŵ' || c == 'ŵ' || c == 'Ŷ'
    || c == 'ŷ' || c == 'Ẑ' || c == 'ẑ' || c == 'Ấ' || c == 'ấ' || c == 'Ế' || c == 'ế' || c == 'Ố' || c == 'ố' || c == 'Ậ'
    || c == 'ậ' || c == 'Ệ' || c == 'ệ' || c == 'Ộ' || c == 'ộ' || c == 'Ầ' || c == 'ầ' || c == 'Ề' || c == 'ề' || c == 'Ồ'
    || c == 'ồ' || c == 'Ẩ' || c == 'ẩ' || c == 'Ể' || c == 'ể' || c == 'Ổ' || c == 'ổ' || c == 'Ẫ' || c == 'ẫ' || c == 'Ễ'
    || c == 'ễ' || c == 'Ỗ' || c == 'ỗ' || c == 'Ḓ' || c == 'ḓ' || c == 'Ḙ' || c == 'ḙ' || c == 'Ḽ' || c == 'ḽ' || c == 'Ṋ'
    || c == 'ṋ' || c == 'Ṱ' || c == 'ṱ' || c == 'Ṷ' || c == 'ṷ' || c == 'Ș' || c == 'ș' || c == 'Ț' || c == 'ț' || c == 'Ä'
    || c == 'ä' || c == 'Ë' || c == 'ë' || c == 'Ḧ' || c == 'ḧ' || c == 'Ï' || c == 'ï' || c == 'Ö' || c == 'ö' || c == 'ẗ'
    || c == 'Ü' || c == 'ü' || c == 'Ẅ' || c == 'ẅ' || c == 'Ẍ' || c == 'ẍ' || c == 'Ÿ' || c == 'ÿ' || c == 'Ḯ' || c == 'ḯ'
    || c == 'Ǘ' || c == 'ǘ' || c == 'Ǚ' || c == 'ǚ' || c == 'Ǜ' || c == 'ǜ' || c == 'Ǟ' || c == 'ǟ' || c == 'Ȫ' || c == 'ȫ'
    || c == 'Ǖ' || c == 'ǖ' || c == 'Ṳ' || c == 'ṳ' || c == 'Ȧ' || c == 'ȧ' || c == 'Ḃ' || c == 'ḃ' || c == 'Ċ' || c == 'ċ'
    || c == 'Ḋ' || c == 'ḋ' || c == 'Ė' || c == 'ė' || c == 'Ḟ' || c == 'ḟ' || c == 'Ġ' || c == 'ġ' || c == 'Ḣ' || c == 'ḣ'
    || c == 'İ' || c == 'Ṁ' || c == 'ṁ' || c == 'Ṅ' || c == 'ṅ' || c == 'Ȯ' || c == 'ȯ' || c == 'Ṗ' || c == 'ṗ' || c == 'Ṙ'
    || c == 'ṙ' || c == 'Ṡ' || c == 'ẛ' || c == 'ṡ' || c == 'Ṫ' || c == 'ṫ' || c == 'Ẇ' || c == 'ẇ' || c == 'Ẋ' || c == 'ẋ'
    || c == 'Ẏ' || c == 'ẏ' || c == 'Ż' || c == 'ż' || c == 'Ǡ' || c == 'ǡ' || c == 'Ȱ' || c == 'ȱ' || c == 'Ạ' || c == 'ạ'
    || c == 'Ḅ' || c == 'ḅ' || c == 'Ḍ' || c == 'ḍ' || c == 'Ẹ' || c == 'ẹ' || c == 'Ḥ' || c == 'ḥ' || c == 'Ị' || c == 'ị'
    || c == 'Ḳ' || c == 'ḳ' || c == 'Ḷ' || c == 'ḷ' || c == 'Ṃ' || c == 'ṃ' || c == 'Ṇ' || c == 'ṇ' || c == 'Ọ' || c == 'ọ'
    || c == 'Ṛ' || c == 'ṛ' || c == 'Ṣ' || c == 'ṣ' || c == 'Ṭ' || c == 'ṭ' || c == 'Ụ' || c == 'ụ' || c == 'Ṿ' || c == 'ṿ'
    || c == 'Ẉ' || c == 'ẉ' || c == 'Ỵ' || c == 'ỵ' || c == 'Ẓ' || c == 'ẓ' || c == 'Ṩ' || c == 'ṩ' || c == 'Ḹ' || c == 'ḹ'
    || c == 'Ṝ' || c == 'ṝ' || c == 'Ő' || c == 'ő' || c == 'Ű' || c == 'ű' || c == 'Ȁ' || c == 'ȁ' || c == 'Ȅ' || c == 'ȅ'
    || c == 'Ȉ' || c == 'ȉ' || c == 'Ȍ' || c == 'ȍ' || c == 'Ȑ' || c == 'ȑ' || c == 'Ȕ' || c == 'ȕ' || c == 'À' || c == 'à'
    || c == 'È' || c == 'è' || c == 'Ì' || c == 'ì' || c == 'Ǹ' || c == 'ǹ' || c == 'Ò' || c == 'ò' || c == 'Ù' || c == 'ù'
    || c == 'Ẁ' || c == 'ẁ' || c == 'Ỳ' || c == 'ỳ' || c == 'Ả' || c == 'ả' || c == 'Ẻ' || c == 'ẻ' || c == 'Ỉ' || c == 'ỉ'
    || c == 'Ỏ' || c == 'ỏ' || c == 'Ủ' || c == 'ủ' || c == 'Ỷ' || c == 'ỷ' || c == 'Ơ' || c == 'ơ' || c == 'Ư' || c == 'ư'
    || c == 'Ớ' || c == 'ớ' || c == 'Ứ' || c == 'ứ' || c == 'Ợ' || c == 'ợ' || c == 'Ự' || c == 'ự' || c == 'Ờ' || c == 'ờ'
    || c == 'Ừ' || c == 'ừ' || c == 'Ở' || c == 'ở' || c == 'Ử' || c == 'ử' || c == 'Ỡ' || c == 'ỡ' || c == 'Ữ' || c == 'ữ'
    || c == 'Ȃ' || c == 'ȃ' || c == 'Ȇ' || c == 'ȇ' || c == 'Ȋ' || c == 'ȋ' || c == 'Ȏ' || c == 'ȏ' || c == 'Ȓ' || c == 'ȓ'
    || c == 'Ȗ' || c == 'ȗ' || c == 'Ā' || c == 'ā' || c == 'Ǣ' || c == 'ǣ' || c == 'Ē' || c == 'ē' || c == 'Ḡ' || c == 'ḡ'
    || c == 'Ī' || c == 'ī' || c == 'Ō' || c == 'ō' || c == 'Ū' || c == 'ū' || c == 'Ȳ' || c == 'ȳ' || c == 'Ḗ' || c == 'ḗ'
    || c == 'Ṓ' || c == 'ṓ' || c == 'Ṻ' || c == 'ṻ' || c == 'Ḕ' || c == 'ḕ' || c == 'Ṑ' || c == 'ṑ' || c == 'Ḇ' || c == 'ḇ'
    || c == 'Ḏ' || c == 'ḏ' || c == 'ẖ' || c == 'Ḵ' || c == 'ḵ' || c == 'Ḻ' || c == 'ḻ' || c == 'Ṉ' || c == 'ṉ' || c == 'Ṟ'
    || c == 'ṟ' || c == 'Ṯ' || c == 'ṯ' || c == 'Ẕ' || c == 'ẕ' || c == 'Ą' || c == 'ą' || c == 'Ę' || c == 'ę' || c == 'Į'
    || c == 'į' || c == 'Ǫ' || c == 'ǫ' || c == 'Ų' || c == 'ų' || c == 'Ǭ' || c == 'ǭ' || c == 'Å' || c == 'å' || c == 'Ů'
    || c == 'ů' || c == 'ẘ' || c == 'ẙ' || c == 'Ǻ' || c == 'ǻ' || c == 'Ḁ' || c == 'ḁ' || c == 'Ã' || c == 'ã' || c == 'Ẽ'
    || c == 'ẽ' || c == 'Ĩ' || c == 'ĩ' || c == 'Ñ' || c == 'ñ' || c == 'Õ' || c == 'õ' || c == 'Ũ' || c == 'ũ' || c == 'Ṽ'
    || c == 'ṽ' || c == 'Ỹ' || c == 'ỹ' || c == 'Ṍ' || c == 'ṍ' || c == 'Ṹ' || c == 'ṹ' || c == 'Ṏ' || c == 'ṏ' || c == 'Ȭ'
    || c == 'ȭ' || c == 'Ḛ' || c == 'ḛ' || c == 'Ḭ' || c == 'ḭ' || c == 'Ṵ' || c == 'ṵ' || c == ' ' || c == '’' || c == ':'
    || c == '\U{200B}' || c == '—' || c == '”' || c == '‘'
  }

  /** U+FEFF, the one character tolerated outside the four sets. */
  const ByteOrderMark: char := '\U{FEFF}'

  /** `is_english`: the distinct characters of s, less the four allowed sets,
      leave nothing or only the byte-order mark. */
  predicate IsEnglish(s: string) {
    var rest := set c | c in s && !IsPunctuation(c) && !IsDiacritic(c) && !IsAsciiLetter(c) && !IsDigit(c);
    rest == {} || rest == {ByteOrderMark}
  }

  /** A character is allowed when it lies in one of the four sets or is the
      byte-order mark. */
  predicate Allowed(c: char) {
    IsPunctuation(c) || IsDigit(c) || IsAsciiLetter(c) || IsDiacritic(c) || c == ByteOrderMark
  }

  /** The set-difference test accepts a line exactly when each of its
      characters is allowed. */
  lemma IsEnglishCharwise(s: string)
    ensures IsEnglish(s) <==> forall i :: 0 <= i < |s| ==> Allowed(s[i])
  {
    var rest := set c | c in s && !IsPunctuation(c) && !IsDiacritic(c) && !IsAsciiLetter(c) && !IsDigit(c);
    if forall i :: 0 <= i < |s| ==> Allowed(s[i]) {
      assert rest <= {ByteOrderMark};
      if rest != {} {
        var x :| x in rest;
        assert rest == {ByteOrderMark};
      }
    } else {
      var i :| 0 <= i < |s| && !Allowed(s[i]);
      assert s[i] in rest;
    }
  }

  /** A line whose characters all occur in an accepted line is accepted too. */
  lemma IsEnglishOfFewerChars(s: string, t: string)
    requires IsEnglish(s)
    requires forall c :: c in t ==> c in s
    ensures IsEnglish(t)
  {
    IsEnglishCharwise(s);
    IsEnglishCharwise(t);
    forall i | 0 <= i < |t|
      ensures Allowed(t[i])
    {
      assert t[i] in s;
    }
  }

  /** The empty line is accepted. */
  lemma EmptyIsEnglish()
    ensures IsEnglish("")
  {
    assert (set c | c in "") == {};
  }

  /** ASCII letters, digits, punctuation and spaces are always accepted. */
  lemma PlainAsciiIsEnglish(s: string)
    requires forall i :: 0 <= i < |s| ==> IsAsciiLetter(s[i]) || IsDigit(s[i]) || IsPunctuation(s[i]) || s[i] == ' '
    ensures IsEnglish(s)
  {
    IsEnglishCharwise(s);
  }

  /** Tab, line feed and the CJK unified ideographs are not allowed. */
  lemma ControlAndCjkNotAllowed(c: char)
    requires c == '\t' || c == '\n' || '\U{4E00}' <= c <= '\U{9FFF}'
    ensures !Allowed(c)
  {
    assert !IsDiacritic(c);
  }

  /** A tab, a line feed or a CJK ideograph anywhere rejects the line. */
  lemma ControlAndCjkRejected(s: string, i: nat)
    requires i < |s| && (s[i] == '\t' || s[i] == '\n' || '\U{4E00}' <= s[i] <= '\U{9FFF}')
    ensures !IsEnglish(s)
  {
    ControlAndCjkNotAllowed(s[i]);
    IsEnglishCharwise(s);
  }

  /** What `test_file` returns: the kept lines, the number rejected, and the
      rejected lines. */
  datatype Screened = Screened(lines: seq<string>, count: nat, notlines: seq<string>)

  /** `test_file`: strips every line, then keeps it when it is Latin-only and
      sets it aside otherwise. */
  function TestFile(filelines: seq<string>): (r: Screened)
    ensures r.lines == Filter(Map(filelines, Strip), IsEnglish)
    ensures r.notlines == Reject(Map(filelines, Strip), IsEnglish)
    ensures r.count == |r.notlines|
    decreases |filelines|
  {
    if |filelines| == 0 then Screened([], 0, [])
    else
      var line := Strip(filelines[0]);
      var rest := TestFile(filelines[1..]);
      ghost var m := Map(filelines, Strip);
      assert m[0] == line && m[1..] == Map(filelines[1..], Strip);
      if IsEnglish(line) then Screened([line] + rest.lines, rest.count, rest.notlines)
      else Screened(rest.lines, rest.count + 1, [line] + rest.notlines)
  }

  /** Every input line lands, stripped, in exactly one of the two lists; the
      count is the number rejected; kept lines are Latin-only and stripped,
      rejected ones are not Latin-only. */
  lemma TestFilePartition(filelines: seq<string>)
    ensures var r := TestFile(filelines);
      && |r.lines| + r.count == |filelines|
      && multiset(r.lines) + multiset(r.notlines) == multiset(Map(filelines, Strip))
      && (forall l :: l in r.lines ==> IsEnglish(l) && Strip(l) == l)
      && (forall l :: l in r.notlines ==> !IsEnglish(l))
  {
    var stripped := Map(filelines, Strip);
    FilterRejectPartition(stripped, IsEnglish);
    forall l | l in TestFile(filelines).lines
      ensures Strip(l) == l
    {
      var i :| 0 <= i < |stripped| && stripped[i] == l;
      StripIdempotent(filelines[i]);
    }
  }
}
