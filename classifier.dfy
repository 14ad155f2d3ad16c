/** `identify_material`: asks a remote chat model for a material name, normalises the
    answer and reconciles it with the emissions-factor table. The remote model is an
    oracle; everything the function does with the oracle's outcome is modelled. */
module Classifier {
  import opened GwpTable

  datatype Option<T> = None | Some(value: T)

  /** A chat message; `content` is None when the field is absent or is not a string. */
  datatype Message = Message(content: Option<string>)

  /** One completion choice; `message` is None when the field is absent. */
  datatype Choice = Choice(message: Option<Message>)

  /** The chat-completion response; `choices` is None when the field is absent. */
  datatype Response = Response(choices: Option<seq<Choice>>)

  /** What the remote call did: it raised, or it returned a response. */
  datatype CallOutcome = Raised | Returned(response: Response)

  /** The remote model: given a component description (from which the prompt is built),
      the outcome of one chat-completion call. */
  type Oracle = string -> CallOutcome

  /** `response['choices'][0]['message']['content']` when that is a string; None wherever
      the lookup, the indexing or the later `.strip()` would raise. */
  function AnswerText(outcome: CallOutcome): (text: Option<string>)
    ensures outcome.Raised? ==> text == None
    ensures text.Some? <==>
      && outcome.Returned?
      && outcome.response.choices.Some?
      && |outcome.response.choices.value| > 0
      && outcome.response.choices.value[0].message.Some?
      && outcome.response.choices.value[0].message.value.content.Some?
    ensures text.Some? ==> text.value == outcome.response.choices.value[0].message.value.content.value
  {
    match outcome
    case Raised => None
    case Returned(response) =>
      match response.choices
      case None => None
      case Some(choices) =>
        if |choices| == 0 then None
        else
          match choices[0].message
          case None => None
          case Some(message) => message.content
  }

  /** The answer a chat model returns as a successful reply. */
  function Reply(text: string): CallOutcome
  {
    Returned(Response(Some([Choice(Some(Message(Some(text))))])))
  }

  /** The content of a reply reads back as exactly the text that was sent. */
  lemma ReplyReadsBack(text: string)
    ensures AnswerText(Reply(text)) == Some(text)
  {
  }

  // ---------------------------------------------------------------------------
  // Python's str.strip() and str.lower()
  // ---------------------------------------------------------------------------

  /** The characters for which Python's str.isspace() holds, which str.strip() removes. */
  predicate IsSpace(c: char): (space: bool)
    ensures c == ' ' || c == '\t' || c == '\n' || c == '\r' ==> space
    ensures space ==> !IsAsciiUpper(c) && !('a' <= c <= 'z') && !('0' <= c <= '9')
  {
    || c == ' '
    || '\t' <= c <= '\r'
    || '\U{1C}' <= c <= '\U{1F}'
    || c == '\U{85}'
    || c == '\U{A0}'
    || c == '\U{1680}'
    || '\U{2000}' <= c <= '\U{200A}'
    || c == '\U{2028}'
    || c == '\U{2029}'
    || c == '\U{202F}'
    || c == '\U{205F}'
    || c == '\U{3000}'
  }

  predicate AllSpace(s: string)
  {
    forall i :: 0 <= i < |s| ==> IsSpace(s[i])
  }

  /** Neither begins nor ends with whitespace. */
  predicate Trimmed(s: string)
  {
    s == [] || (!IsSpace(s[0]) && !IsSpace(s[|s| - 1]))
  }

  /** Drops leading whitespace: the result is the suffix that starts at the first
      non-whitespace character. */
  function TrimStart(s: string): (r: string)
    ensures |r| <= |s| && r == s[|s| - |r|..]
    ensures r == [] || !IsSpace(r[0])
  {
    if s != [] && IsSpace(s[0]) then TrimStart(s[1..]) else s
  }

  /** What TrimStart drops is whitespace only. */
  lemma {:induction false} TrimStartDropsSpace(s: string)
    ensures forall i :: 0 <= i < |s| - |TrimStart(s)| ==> IsSpace(s[i])
  {
    if s != [] && IsSpace(s[0]) {
      var t := s[1..];
      TrimStartDropsSpace(t);
      assert TrimStart(s) == TrimStart(t);
      forall i | 1 <= i < |s| - |TrimStart(s)|
        ensures IsSpace(s[i])
      {
        assert s[i] == t[i - 1];
      }
    }
  }

  /** Drops trailing whitespace: the result is the prefix that ends at the last
      non-whitespace character. */
  function TrimEnd(s: string): (r: string)
    ensures |r| <= |s| && r == s[..|r|]
    ensures r == [] || !IsSpace(r[|r| - 1])
  {
    if s != [] && IsSpace(s[|s| - 1]) then TrimEnd(s[..|s| - 1]) else s
  }

  /** What TrimEnd drops is whitespace only. */
  lemma {:induction false} TrimEndDropsSpace(s: string)
    ensures forall i :: |TrimEnd(s)| <= i < |s| ==> IsSpace(s[i])
  {
    if s != [] && IsSpace(s[|s| - 1]) {
      var t := s[..|s| - 1];
      TrimEndDropsSpace(t);
      assert TrimEnd(s) == TrimEnd(t);
      forall i | |TrimEnd(s)| <= i < |s| - 1
        ensures IsSpace(s[i])
      {
        assert s[i] == t[i];
      }
    }
  }

  /** Leading whitespace in front of a string that starts with a non-whitespace character
      is removed, and nothing else. */
  lemma {:induction false} TrimStartPadded(p: string, x: string)
    requires AllSpace(p)
    requires x == [] || !IsSpace(x[0])
    ensures TrimStart(p + x) == x
  {
    if p == [] {
      assert p + x == x;
    } else {
      assert (p + x)[1..] == p[1..] + x;
      TrimStartPadded(p[1..], x);
    }
  }

  /** Trailing whitespace after a string that ends with a non-whitespace character is
      removed, and nothing else. */
  lemma {:induction false} TrimEndPadded(x: string, q: string)
    requires AllSpace(q)
    requires x == [] || !IsSpace(x[|x| - 1])
    ensures TrimEnd(x + q) == x
  {
    if q == [] {
      assert x + q == x;
    } else {
      assert (x + q)[..|x + q| - 1] == x + q[..|q| - 1];
      TrimEndPadded(x, q[..|q| - 1]);
    }
  }

  /** `str.strip()` with no argument. */
  function Strip(s: string): (r: string)
    ensures Trimmed(r)
    ensures |r| <= |s|
    ensures AllSpace(s) ==> r == []
  {
    var t := TrimStart(s);
    assert AllSpace(s) ==> t == [] by {
      if AllSpace(s) {
        TrimStartPadded(s, []);
        assert s + [] == s;
      }
    }
    TrimEnd(t)
  }

  /** Whatever whitespace surrounds a trimmed core, stripping gives back exactly the core. */
  lemma StripUnique(p: string, m: string, q: string)
    requires AllSpace(p) && AllSpace(q) && Trimmed(m)
    ensures Strip(p + m + q) == m
  {
    if m == [] {
      assert p + m + q == p + q;
      assert AllSpace(p + q) by {
        forall i | 0 <= i < |p + q| ensures IsSpace((p + q)[i]) {
          if i < |p| { assert (p + q)[i] == p[i]; } else { assert (p + q)[i] == q[i - |p|]; }
        }
      }
    } else {
      assert p + m + q == p + (m + q);
      TrimStartPadded(p, m + q);
      TrimEndPadded(m, q);
    }
  }

  /** A string without surrounding whitespace is its own stripped form. */
  lemma StripTrimmed(s: string)
    requires Trimmed(s)
    ensures Strip(s) == s
  {
    assert TrimStart(s) == s;
    assert TrimEnd(s) == s;
  }

  /** Stripping an already stripped string changes nothing. */
  lemma StripIdempotent(s: string)
    ensures Strip(Strip(s)) == Strip(s)
  {
    StripTrimmed(Strip(s));
  }

  /** KELVIN SIGN, the one character outside A-Z whose Python lower-case form is an ASCII letter. */
  const KelvinSign: char := '\U{212A}'

  predicate IsAsciiUpper(c: char)
  {
    'A' <= c <= 'Z'
  }

  /** Python's lower-casing of one character, for the characters that can lower-case into
      a table key: A-Z and the Kelvin sign. Every other character is kept as it is. */
  function LowerChar(c: char): (l: char)
    ensures !IsAsciiUpper(l) && l != KelvinSign
    ensures !IsAsciiUpper(c) && c != KelvinSign ==> l == c
  {
    if IsAsciiUpper(c) then (c as int + 32) as char
    else if c == KelvinSign then 'k'
    else c
  }

  /** Lower-casing neither creates nor removes whitespace. */
  lemma LowerCharKeepsSpace(c: char)
    ensures IsSpace(LowerChar(c)) <==> IsSpace(c)
  {
  }

  /** `str.lower()`, character by character. */
  function Lower(s: string): (r: string)
    ensures |r| == |s|
    ensures forall i :: 0 <= i < |s| ==> r[i] == LowerChar(s[i])
  {
    seq(|s|, i requires 0 <= i < |s| => LowerChar(s[i]))
  }

  /** The lower-cased string holds no upper-case letter, keeps its whitespace where it was,
      and lower-casing it again changes nothing. */
  lemma LowerProperties(s: string)
    ensures forall i :: 0 <= i < |s| ==> !IsAsciiUpper(Lower(s)[i])
    ensures Trimmed(Lower(s)) <==> Trimmed(s)
    ensures Lower(Lower(s)) == Lower(s)
  {
    if s != [] {
      LowerCharKeepsSpace(s[0]);
      LowerCharKeepsSpace(s[|s| - 1]);
    }
  }

  /** `.strip().lower()`: the normal form an answer is matched in. */
  function Normalize(answer: string): (n: string)
    ensures Trimmed(n)
    ensures |n| <= |answer|
    ensures forall i :: 0 <= i < |n| ==> !IsAsciiUpper(n[i])
  {
    LowerProperties(Strip(answer));
    Lower(Strip(answer))
  }

  /** The normal form of an answer is the lower-cased form of the answer stripped. */
  lemma NormalizeStripped(answer: string, stripped: string)
    requires Strip(answer) == stripped
    ensures Normalize(answer) == Lower(stripped)
  {
  }

  /** Normalising a normal form changes nothing. */
  lemma NormalizeIdempotent(answer: string)
    ensures Normalize(Normalize(answer)) == Normalize(answer)
  {
    StripTrimmed(Normalize(answer));
    LowerProperties(Strip(answer));
  }

  // ---------------------------------------------------------------------------
  // identify_material
  // ---------------------------------------------------------------------------

  /** The label `identify_material(description)` returns for the oracle's outcome. */
  function IdentifyMaterial(oracle: Oracle, description: string): (material: string)
    ensures IsLabel(material)
    ensures material == Error <==> AnswerText(oracle(description)).None?
    ensures material in GwpDb <==>
      AnswerText(oracle(description)).Some? && Normalize(AnswerText(oracle(description)).value) in GwpDb
    ensures material in GwpDb ==> material == Normalize(AnswerText(oracle(description)).value)
    ensures material == Unknown <==>
      AnswerText(oracle(description)).Some? && Normalize(AnswerText(oracle(description)).value) !in GwpDb
  {
    SentinelsHaveNoFactor();
    match AnswerText(oracle(description))
    case None => Error
    case Some(answer) =>
      var candidate := Normalize(answer);
      if candidate in GwpDb then candidate else Unknown
  }

  /** Every way the call or the reading of its response can fail gives exactly "error". */
  lemma FailuresBecomeError(oracle: Oracle, description: string)
    requires
      || oracle(description).Raised?
      || oracle(description).response.choices.None?
      || oracle(description).response.choices.value == []
      || oracle(description).response.choices.value[0].message.None?
      || oracle(description).response.choices.value[0].message.value.content.None?
    ensures IdentifyMaterial(oracle, description) == Error
  {
  }

  /** A reply whose normal form is a key is identified as that key. */
  lemma ReplyIdentified(oracle: Oracle, description: string, answer: string)
    requires oracle(description) == Reply(answer)
    requires Normalize(answer) in GwpDb
    ensures IdentifyMaterial(oracle, description) == Normalize(answer)
  {
    assert AnswerText(oracle(description)) == Some(answer);
  }

  /** An answer that is a table key up to surrounding whitespace and letter case is accepted
      as exactly that key. */
  lemma PaddedAnswerAccepted(oracle: Oracle, description: string, p: string, m: string, q: string)
    requires AnswerText(oracle(description)) == Some(p + m + q)
    requires AllSpace(p) && AllSpace(q)
    requires Lower(m) in GwpDb
    ensures IdentifyMaterial(oracle, description) == Lower(m)
  {
    LowerProperties(m);
    assert Trimmed(Lower(m));
    StripUnique(p, m, q);
  }

  /** The key "PVC" is upper-case but the answer is lower-cased before the lookup, so no
      answer can ever be identified as PVC, and no row ever gets the PVC factor. */
  lemma PvcNeverIdentified(oracle: Oracle, description: string)
    ensures IdentifyMaterial(oracle, description) != "PVC"
    ensures FactorOf(IdentifyMaterial(oracle, description)) != GwpDb["PVC"]
  {
    var material := IdentifyMaterial(oracle, description);
    if material in GwpDb {
      assert !IsAsciiUpper(material[0]);
    }
    FactorsPositiveAndDistinct();
  }

  /** Lower-casing the list's spelling "PVC" gives "pvc". */
  lemma UpperPvcLowered()
    ensures Lower("PVC") == "pvc"
  {
  }

  /** "pvc" is already lower-case. */
  lemma LowerPvcLowered()
    ensures Lower("pvc") == "pvc"
  {
  }

  /** The answer "PVC" normalises to "pvc". */
  lemma UpperPvcNormal()
    ensures Normalize("PVC") == "pvc"
  {
    StripTrimmed("PVC");
    NormalizeStripped("PVC", "PVC");
    UpperPvcLowered();
  }

  /** The answer "pvc" normalises to itself. */
  lemma LowerPvcNormal()
    ensures Normalize("pvc") == "pvc"
  {
    StripTrimmed("pvc");
    NormalizeStripped("pvc", "pvc");
    LowerPvcLowered();
  }

  /** The model answering exactly as the prompt's list suggests, "PVC", yields "unknown". */
  lemma PvcAnswerIsUnknown(oracle: Oracle, description: string)
    requires AnswerText(oracle(description)) == Some("PVC")
    ensures IdentifyMaterial(oracle, description) == Unknown
  {
    UpperPvcNormal();
    PvcOnlyUpperCase();
  }

  /** The lower-case answer "pvc" is not a key either, so it too yields "unknown". */
  lemma LowerPvcAnswerIsUnknown(oracle: Oracle, description: string)
    requires AnswerText(oracle(description)) == Some("pvc")
    ensures IdentifyMaterial(oracle, description) == Unknown
  {
    LowerPvcNormal();
    PvcOnlyUpperCase();
  }

  /** The answer "Aluminium" has no whitespace to strip. */
  lemma StripAluminium()
    ensures Strip("Aluminium") == "Aluminium"
  {
    var answer := "Aluminium";
    assert !IsSpace(answer[0]) && !IsSpace(answer[|answer| - 1]);
    assert TrimStart(answer) == answer;
    assert TrimEnd(answer) == answer;
  }

  /** "Aluminium" lower-cases to the key "aluminium". */
  lemma LowerAluminium()
    ensures Lower("Aluminium") == "aluminium"
  {
  }

  /** The answer " teak\n" strips to "teak". */
  lemma StripTeak()
    ensures Strip(" teak\n") == "teak"
  {
    assert [' '] + "teak" + ['\n'] == " teak\n";
    StripUnique([' '], "teak", ['\n']);
  }

  /** "teak" is already lower-case. */
  lemma LowerTeak()
    ensures Lower("teak") == "teak"
  {
  }

  /** An answer naming a material outside the table, such as "titanium", yields "unknown". */
  lemma TitaniumIsUnknown(oracle: Oracle, description: string)
    requires AnswerText(oracle(description)) == Some("titanium")
    ensures IdentifyMaterial(oracle, description) == Unknown
  {
    StripTrimmed("titanium");
    NormalizeStripped("titanium", "titanium");
    // No key of the table has eight characters.
    assert |Normalize("titanium")| == 8;
  }
}
