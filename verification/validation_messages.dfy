/** Validation messages: a failed field check is reported under a dotted, lower-camel path
    (the struct name dropped, each segment's first character lower-cased) and described by
    the message registered for `<path>.<tag>`, or by a fixed default. */
module Validation {
  import opened Text
  import opened Bytes

  /** What the program reads from a validator field error: the struct namespace (for
      example `InputDto.Meta.Topic`) and the failed tag (for example `required`). */
  datatype FieldError = FieldError(structNamespace: string, tag: string)

  const DefaultFieldMessage: string := "Campo obrigatório ou inválido."
  const DefaultValidationText: string := "Erro de validação"

  /** The upper-case letters the model lower-cases: ASCII `A`-`Z` and the Latin-1 capitals
      U+00C0..U+00DE other than the multiplication sign U+00D7. */
  predicate IsUpper(c: char)
  {
    ('A' <= c <= 'Z') || ('\U{00C0}' <= c <= '\U{00DE}' && c != '\U{00D7}')
  }

  /** `unicode.ToLower` on the letters `IsUpper` names; every other character is its own
      lower case. */
  function LowerRune(c: char): (r: char)
    ensures !IsUpper(r)
    ensures IsUpper(c) ==> r as int == c as int + 32
    ensures !IsUpper(c) ==> r == c
    ensures c as int < 128 <==> r as int < 128
  {
    if IsUpper(c) then (c as int + 32) as char else c
  }

  /** `toCamelLower`, with its first character taken as a whole character: that character
      lower-cased, the rest unchanged. */
  function ToCamelLower(s: string): (r: string)
    ensures |r| == |s|
    ensures |s| > 0 ==> r[0] == LowerRune(s[0]) && r[1..] == s[1..]
    ensures |r| > 0 ==> !IsUpper(r[0])
  {
    if s == "" then s else [LowerRune(s[0])] + s[1..]
  }

  /** Lower-casing the first character twice is doing it once. */
  lemma ToCamelLowerIdempotent(s: string)
    ensures ToCamelLower(ToCamelLower(s)) == ToCamelLower(s)
  {
    if |s| > 0 {
      var r := ToCamelLower(s);
      assert ToCamelLower(r) == [LowerRune(r[0])] + r[1..];
    }
  }

  /** Lower-casing never introduces the segment separator. */
  lemma ToCamelLowerKeepsDots(s: string)
    ensures '.' in ToCamelLower(s) <==> '.' in s
  {
    if |s| > 0 {
      var r := ToCamelLower(s);
      assert r == [r[0]] + r[1..] && s == [s[0]] + s[1..];
    }
  }

  /** `toCamelLower` as written: `strings.ToLower(s[:1]) + s[1:]` slices the first BYTE.
      An ASCII first byte is lower-cased as expected, but a lone non-ASCII lead byte is not
      valid UTF-8, so `strings.ToLower` replaces it with the replacement character U+FFFD
      (bytes EF BF BD), and the first character's continuation bytes are left dangling. */
  function ToCamelLowerBytes(b: seq<byte>): (r: seq<byte>)
    ensures |b| > 0 && b[0] < 128 ==> |r| == |b| && r[1..] == b[1..]
    ensures |b| > 0 && b[0] < 128 ==> r[0] as int == LowerRune(b[0] as int as char) as int
    ensures |b| > 0 && b[0] >= 128 ==> r == [0xEF, 0xBF, 0xBD] + b[1..]
    ensures |b| == 0 ==> r == []
  {
    if |b| == 0 then b
    else if 65 <= b[0] <= 90 then [b[0] + 32] + b[1..]
    else if b[0] < 128 then b
    else [0xEF, 0xBF, 0xBD] + b[1..]
  }

  /** For a string that starts with an ASCII character the byte-slicing version agrees with
      the character-level one. */
  lemma ToCamelLowerBytesAgrees(s: string)
    requires |s| == 0 || s[0] as int < 128
    ensures ToCamelLowerBytes(Utf8(s)) == Utf8(ToCamelLower(s))
  {
    if |s| > 0 {
      var tail := Utf8(s[1..]);
      Utf8Head(s);
      Utf8Head(ToCamelLower(s));
      AsciiHeadBytes(s[0], tail);
    }
  }

  /** The encoding of a string that starts with an ASCII character: that byte, then the
      encoding of the rest. */
  lemma Utf8Head(s: string)
    requires |s| > 0 && s[0] as int < 128
    ensures Utf8(s) == [s[0] as int as byte] + Utf8(s[1..])
  {
  }

  /** The byte-level lower-casing on an ASCII first byte agrees with `LowerRune`. */
  lemma AsciiHeadBytes(c: char, tail: seq<byte>)
    requires c as int < 128
    ensures ToCamelLowerBytes([c as int as byte] + tail) == [LowerRune(c) as int as byte] + tail
  {
    var b := [c as int as byte] + tail;
    assert b[1..] == tail;
    AsciiLowerByte(c);
  }

  /** On an ASCII character the byte-level lower-casing is `LowerRune`. */
  lemma AsciiLowerByte(c: char)
    requires c as int < 128
    ensures (if 65 <= c as int <= 90 then c as int + 32 else c as int) == LowerRune(c) as int
  {
  }

  /** The discrepancy: a field segment `É` comes out as the bytes EF BF BD 89 (a replacement
      character and a stray continuation byte) instead of `é` (C3 A9), and lower-casing that
      again grows it, so the as-written function is not idempotent. */
  lemma ToCamelLowerBytesMangles()
    ensures Utf8("É") == [0xC3, 0x89]
    ensures ToCamelLowerBytes(Utf8("É")) == [0xEF, 0xBF, 0xBD, 0x89]
    ensures Utf8(ToCamelLower("É")) == [0xC3, 0xA9]
    ensures ToCamelLowerBytes(Utf8("É")) != Utf8(ToCamelLower("É"))
    ensures ToCamelLowerBytes(ToCamelLowerBytes(Utf8("É"))) != ToCamelLowerBytes(Utf8("É"))
  {
    assert "É"[1..] == "";
    assert ToCamelLower("É") == "é";
    assert "é"[1..] == "";
    var once := ToCamelLowerBytes(Utf8("É"));
    assert |ToCamelLowerBytes(once)| == 6;
  }

  /** The segments of a namespace that make up the field path: all but the first when there
      are several. */
  function Segments(ns: string): (parts: seq<string>)
    ensures |parts| >= 1
    ensures forall i :: 0 <= i < |parts| ==> '.' !in parts[i]
    ensures |Split(ns, '.')| > 1 ==> parts == Split(ns, '.')[1..]
    ensures |Split(ns, '.')| == 1 ==> parts == [ns]
  {
    var parts := Split(ns, '.');
    if |parts| > 1 then parts[1..]
    else
      JoinSplit(ns, '.');
      parts
  }

  /** Every segment with its first character lower-cased. */
  function LowerEach(parts: seq<string>): (r: seq<string>)
    ensures |r| == |parts|
    ensures forall i :: 0 <= i < |parts| ==> r[i] == ToCamelLower(parts[i])
  {
    seq(|parts|, i requires 0 <= i < |parts| => ToCamelLower(parts[i]))
  }

  /** `CamelToDotNotation`: reading the path back at its dots gives the kept segments, each
      with its first character lower-cased; a namespace without dots is one segment. */
  function CamelToDotNotation(ns: string): (field: string)
    ensures Split(field, '.') == LowerEach(Segments(ns))
    ensures '.' !in ns ==> field == ToCamelLower(ns)
  {
    var lowered := LowerEach(Segments(ns));
    LoweredSegmentsDotFree(ns);
    SplitJoin(lowered, '.');
    if '.' !in ns then
      SplitWithoutSeparator(ns, '.');
      Join(lowered, '.')
    else Join(lowered, '.')
  }

  /** No lowered segment contains a dot. */
  lemma LoweredSegmentsDotFree(ns: string)
    ensures forall i :: 0 <= i < |Segments(ns)| ==> '.' !in LowerEach(Segments(ns))[i]
  {
    forall i | 0 <= i < |Segments(ns)|
      ensures '.' !in LowerEach(Segments(ns))[i]
    {
      ToCamelLowerKeepsDots(Segments(ns)[i]);
    }
  }

  /** A field path never starts with an upper-case letter: it starts with a lower-cased
      character or with a dot. */
  lemma FieldPathStart(ns: string)
    ensures var field := CamelToDotNotation(ns);
            |field| > 0 ==> !IsUpper(field[0])
  {
    var lowered := LowerEach(Segments(ns));
    JoinSplit(CamelToDotNotation(ns), '.');
    JoinFirst(lowered, '.');
  }

  /** The key a field error's message is registered under. */
  function MessageKey(e: FieldError): string
  {
    CamelToDotNotation(e.structNamespace) + "." + e.tag
  }

  /** The message one error contributes: the registered one, or the default. */
  function MessageFor(e: FieldError, messages: map<string, string>): string
  {
    if MessageKey(e) in messages then messages[MessageKey(e)] else DefaultFieldMessage
  }

  /** The field path of an error. */
  function Field(e: FieldError): string
  {
    CamelToDotNotation(e.structNamespace)
  }

  /** A map built by writing `value(x)` under `key(x)` for each `x` in turn: one entry per
      distinct key, and for each key the value of the last element that has it. */
  function LastWins<X>(xs: seq<X>, key: X -> string, value: X -> string): (m: map<string, string>)
    ensures m.Keys == set i | 0 <= i < |xs| :: key(xs[i])
    ensures forall k :: k in m ==> exists i :: 0 <= i < |xs| && key(xs[i]) == k && m[k] == value(xs[i])
    ensures forall i :: 0 <= i < |xs| && (forall j :: i < j < |xs| ==> key(xs[j]) != key(xs[i]))
              ==> m[key(xs[i])] == value(xs[i])
    decreases |xs|
  {
    if |xs| == 0 then map[]
    else
      var n := |xs| - 1;
      var prefix := xs[..n];
      var earlier := LastWins(prefix, key, value);
      LastWinsStep(xs, key, value, earlier);
      earlier[key(xs[n]) := value(xs[n])]
  }

  /** One more write keeps the `LastWins` description true. */
  lemma LastWinsStep<X>(xs: seq<X>, key: X -> string, value: X -> string, earlier: map<string, string>)
    requires |xs| > 0
    requires var p := xs[..|xs| - 1];
             && earlier.Keys == (set i | 0 <= i < |p| :: key(p[i]))
             && (forall k :: k in earlier ==> exists i :: 0 <= i < |p| && key(p[i]) == k && earlier[k] == value(p[i]))
             && (forall i :: 0 <= i < |p| && (forall j :: i < j < |p| ==> key(p[j]) != key(p[i]))
                   ==> earlier[key(p[i])] == value(p[i]))
    ensures var m := earlier[key(xs[|xs| - 1]) := value(xs[|xs| - 1])];
            && m.Keys == (set i | 0 <= i < |xs| :: key(xs[i]))
            && (forall k :: k in m ==> exists i :: 0 <= i < |xs| && key(xs[i]) == k && m[k] == value(xs[i]))
            && (forall i :: 0 <= i < |xs| && (forall j :: i < j < |xs| ==> key(xs[j]) != key(xs[i]))
                  ==> m[key(xs[i])] == value(xs[i]))
  {
    var n := |xs| - 1;
    var p := xs[..n];
    var m := earlier[key(xs[n]) := value(xs[n])];
    assert forall i :: 0 <= i < n ==> p[i] == xs[i];
    assert m.Keys == set i | 0 <= i < |xs| :: key(xs[i]);
    forall k | k in m
      ensures exists i :: 0 <= i < |xs| && key(xs[i]) == k && m[k] == value(xs[i])
    {
      if k != key(xs[n]) {
        var i :| 0 <= i < |p| && key(p[i]) == k && earlier[k] == value(p[i]);
        assert key(xs[i]) == k && m[k] == value(xs[i]);
      } else {
        assert key(xs[n]) == k && m[k] == value(xs[n]);
      }
    }
    forall i | 0 <= i < |xs| && (forall j :: i < j < |xs| ==> key(xs[j]) != key(xs[i]))
      ensures m[key(xs[i])] == value(xs[i])
    {
      if i < n {
        assert forall j :: i < j < |p| ==> key(p[j]) != key(p[i]);
      }
    }
  }

  /** `ValidationMessages`: one entry per distinct field path; when several errors share a
      path the last one's message stands, as the loop overwrites earlier entries. */
  function ValidationMessages(errs: seq<FieldError>, messages: map<string, string>): (m: map<string, string>)
    ensures m.Keys == set i | 0 <= i < |errs| :: Field(errs[i])
    ensures forall f :: f in m ==> exists i :: 0 <= i < |errs| && Field(errs[i]) == f && m[f] == MessageFor(errs[i], messages)
    ensures forall i :: 0 <= i < |errs| && (forall j :: i < j < |errs| ==> Field(errs[j]) != Field(errs[i]))
              ==> m[Field(errs[i])] == MessageFor(errs[i], messages)
  {
    LastWins(errs, Field, (e: FieldError) => MessageFor(e, messages))
  }

  /** The messages the publish input registers. Their keys are capitalised. */
  const CreateInputErrors: map<string, string> :=
    map["Meta.Topic.required" := "O tópico é obrigatório.", "Data.required" := "Os dados são obrigatórios."]

  /** The publish input's registered messages can never be found: a lookup key starts with a
      lower-cased character or a dot, never with `M` or `D`, so every field gets the
      default message. */
  lemma CreateInputErrorsNeverMatch(errs: seq<FieldError>)
    ensures forall f :: f in ValidationMessages(errs, CreateInputErrors) ==>
              ValidationMessages(errs, CreateInputErrors)[f] == DefaultFieldMessage
  {
    forall e: FieldError
      ensures MessageFor(e, CreateInputErrors) == DefaultFieldMessage
    {
      FieldPathStart(e.structNamespace);
      var key := MessageKey(e);
      assert key[0] != 'M' && key[0] != 'D';
      assert key !in CreateInputErrors;
    }
  }

  /** The publish input's messages under the keys the lookup actually builds. */
  const CreateInputErrorsLowerCase: map<string, string> :=
    map["meta.topic.required" := "O tópico é obrigatório.", "data.required" := "Os dados são obrigatórios."]

  /** A three-segment namespace drops its first segment and lower-cases the other two. */
  lemma {:induction false} ThreeSegmentPath(a: string, b: string, c: string)
    requires '.' !in a && '.' !in b && '.' !in c
    ensures CamelToDotNotation(a + "." + b + "." + c) == ToCamelLower(b) + "." + ToCamelLower(c)
  {
    var parts := [a, b, c];
    var ns := a + "." + b + "." + c;
    assert Join(parts[1..], '.') == b + "." + c by {
      assert Join(parts[2..], '.') == c;
    }
    assert Join(parts, '.') == ns;
    SplitJoin(parts, '.');
    var lowered := [ToCamelLower(b), ToCamelLower(c)];
    assert LowerEach(Segments(ns)) == lowered;
    var field := CamelToDotNotation(ns);
    JoinSplit(field, '.');
    assert Join(lowered, '.') == ToCamelLower(b) + "." + ToCamelLower(c) by {
      assert Join(lowered[1..], '.') == ToCamelLower(c);
    }
  }

  /** The topic inside `Meta` of a publish input struct is reported under `meta.topic`,
      whatever the struct is called. */
  lemma TopicFieldPath(dto: string)
    requires '.' !in dto
    ensures CamelToDotNotation(dto + "." + "Meta" + "." + "Topic") == "meta.topic"
  {
    MetaTopicSegments();
    ThreeSegmentPath(dto, "Meta", "Topic");
    MetaTopicPath();
  }

  /** The two segments after the struct name hold no dot. */
  lemma MetaTopicSegments()
    ensures '.' !in "Meta" && '.' !in "Topic"
  {
  }

  /** The two segments after the struct name, lower-cased and joined. */
  lemma MetaTopicPath()
    ensures ToCamelLower("Meta") + "." + ToCamelLower("Topic") == "meta.topic"
  {
    assert ToCamelLower("Meta") == "meta";
    assert ToCamelLower("Topic") == "topic";
  }

  /** A single error gives a single entry: its field path and its message. */
  lemma SingleError(e: FieldError, messages: map<string, string>)
    ensures ValidationMessages([e], messages) == map[Field(e) := MessageFor(e, messages)]
  {
    var m := ValidationMessages([e], messages);
    assert m.Keys == {Field(e)} by {
      assert [e][0] == e;
    }
  }

  /** The field path of a missing topic. */
  lemma MissingTopicField(e: FieldError, dto: string)
    requires '.' !in dto && e.structNamespace == dto + "." + "Meta" + "." + "Topic"
    ensures Field(e) == "meta.topic"
  {
    TopicFieldPath(dto);
  }

  /** The lookup key of a missing topic. */
  lemma RequiredTopicKey(e: FieldError, dto: string)
    requires '.' !in dto && e.structNamespace == dto + "." + "Meta" + "." + "Topic" && e.tag == "required"
    ensures MessageKey(e) == "meta.topic.required"
  {
    MetaTopicSegments();
    ThreeSegmentPath(dto, "Meta", "Topic");
    assert MessageKey(e) == ToCamelLower("Meta") + "." + ToCamelLower("Topic") + "." + "required";
    MetaTopicKey();
  }

  /** The two lowered segments, a dot and the tag `required`. */
  lemma MetaTopicKey()
    ensures ToCamelLower("Meta") + "." + ToCamelLower("Topic") + "." + "required" == "meta.topic.required"
  {
    MetaTopicPath();
    assert "meta.topic" + "." + "required" == "meta.topic.required";
  }

  /** The discrepancy: a missing topic is reported with the default message, not with the
      message registered for it. */
  lemma MissingTopicGetsDefault(dto: string)
    requires '.' !in dto
    ensures ValidationMessages([FieldError(dto + "." + "Meta" + "." + "Topic", "required")], CreateInputErrors)
            == map["meta.topic" := DefaultFieldMessage]
  {
    var e := FieldError(dto + "." + "Meta" + "." + "Topic", "required");
    MissingTopicField(e, dto);
    RequiredTopicKey(e, dto);
    SingleError(e, CreateInputErrors);
    assert MessageKey(e) !in CreateInputErrors;
  }

  /** With the keys written as the lookup builds them, the registered message is found. */
  lemma MissingTopicGetsRegisteredMessage(dto: string)
    requires '.' !in dto
    ensures ValidationMessages([FieldError(dto + "." + "Meta" + "." + "Topic", "required")], CreateInputErrorsLowerCase)
            == map["meta.topic" := "O tópico é obrigatório."]
  {
    var e := FieldError(dto + "." + "Meta" + "." + "Topic", "required");
    MissingTopicField(e, dto);
    RequiredTopicKey(e, dto);
    SingleError(e, CreateInputErrorsLowerCase);
  }

  /** `ValidationMessagesError.Error`: the first message, or a fixed text when there is
      none. */
  function ValidationErrorText(messages: seq<string>): (t: string)
    ensures |messages| > 0 ==> t == messages[0]
    ensures |messages| == 0 ==> t == DefaultValidationText
  {
    if |messages| > 0 then messages[0] else DefaultValidationText
  }
}
