/**
 * The engine code of file_manager.py: a five-character string that says which
 * engine variants a rocket carries, one position per variant in the order
 * Bully, Patient, Greedy, UpSteering, DownSteering ("BPGUD"), with '-' for an
 * absent variant.  Run folders are named after it (e.g. "B-GU-_run003").
 */
module FileManager {
  import opened PyStrings
  import opened Engines
  import opened Rockets

  /** The variants in code order. */
  const CodeOrder: seq<EngineKind> := [Bully, Patient, Greedy, UpSteering, DownSteering]

  /** The position of a variant in the engine code. */
  function Slot(k: EngineKind): (i: nat)
    ensures i < 5 && CodeOrder[i] == k
  {
    match k
    case Bully => 0
    case Patient => 1
    case Greedy => 2
    case UpSteering => 3
    case DownSteering => 4
  }

  /** The letter of a variant in the engine code "BPGUD". */
  function Letter(k: EngineKind): char {
    match k
    case Bully => 'B'
    case Patient => 'P'
    case Greedy => 'G'
    case UpSteering => 'U'
    case DownSteering => 'D'
  }

  lemma SlotOfCodeOrder(i: nat)
    requires i < 5
    ensures Slot(CodeOrder[i]) == i
  {
  }

  lemma LetterIsInjective(k: EngineKind, l: EngineKind)
    requires Letter(k) == Letter(l)
    ensures k == l
  {
  }

  // ---------------------------------------------------------------------------
  // get_code_from_engine_names

  /** The input names, lower-cased, in order. */
  function Lowered(names: seq<string>): (r: seq<string>)
    ensures |r| == |names|
    ensures forall i :: 0 <= i < |names| ==> r[i] == Lower(names[i])
  {
    seq(|names|, i requires 0 <= i < |names| => Lower(names[i]))
  }

  /** The variant's lower-case class name is among the lower-cased input names. */
  predicate Present(names: seq<string>, k: EngineKind) {
    LowerName(k) in Lowered(names)
  }

  /** What `get_code_from_engine_names` writes at the position of variant `k`. */
  function Mark(names: seq<string>, k: EngineKind): char {
    if Present(names, k) then Letter(k) else '-'
  }

  /** The code `get_code_from_engine_names` returns. */
  function Code(names: seq<string>): (code: string)
    ensures |code| == 5
  {
    [Mark(names, Bully), Mark(names, Patient), Mark(names, Greedy), Mark(names, UpSteering), Mark(names, DownSteering)]
  }

  /** `get_code_from_engine_names`: the code is built one position at a time with `+=`. */
  method EngineCode(names: seq<string>) returns (code: string)
    ensures code == Code(names)
  {
    var lowered := Lowered(names);
    code := "";
    if "bullyengine" in lowered {
      code := code + "B";
    } else {
      code := code + "-";
    }
    if "patientengine" in lowered {
      code := code + "P";
    } else {
      code := code + "-";
    }
    if "greedyengine" in lowered {
      code := code + "G";
    } else {
      code := code + "-";
    }
    if "upsteeringengine" in lowered {
      code := code + "U";
    } else {
      code := code + "-";
    }
    if "downsteeringengine" in lowered {
      code := code + "D";
    } else {
      code := code + "-";
    }
  }

  /**
   * Each position holds either its own letter or '-', and it holds its letter
   * exactly when some input name, lower-cased, is the variant's class name.
   */
  lemma CodeMarksPresentEngines(names: seq<string>, k: EngineKind)
    ensures Code(names)[Slot(k)] == Letter(k) || Code(names)[Slot(k)] == '-'
    ensures Code(names)[Slot(k)] == Letter(k) <==> exists i :: 0 <= i < |names| && Lower(names[i]) == LowerName(k)
  {
    var lowered := Lowered(names);
    if LowerName(k) in lowered {
      var i :| 0 <= i < |lowered| && lowered[i] == LowerName(k);
      assert Lower(names[i]) == LowerName(k);
    }
  }

  /** The code depends only on which names occur: their order and repetitions do not matter. */
  lemma CodeIgnoresOrderAndDuplicates(a: seq<string>, b: seq<string>)
    requires forall n :: n in a <==> n in b
    ensures Code(a) == Code(b)
  {
    forall k: EngineKind ensures Present(a, k) == Present(b, k) {
      if Present(a, k) {
        var i :| 0 <= i < |a| && Lowered(a)[i] == LowerName(k);
        assert a[i] in b;
        var j :| 0 <= j < |b| && b[j] == a[i];
        assert Lowered(b)[j] == LowerName(k);
      }
      if Present(b, k) {
        var j :| 0 <= j < |b| && Lowered(b)[j] == LowerName(k);
        assert b[j] in a;
        var i :| 0 <= i < |a| && a[i] == b[j];
        assert Lowered(a)[i] == LowerName(k);
      }
    }
    forall i | 0 <= i < 5 ensures Code(a)[i] == Code(b)[i] {
      assert Mark(a, CodeOrder[i]) == Mark(b, CodeOrder[i]);
    }
  }

  // ---------------------------------------------------------------------------
  // is_engine_code

  /** The Python value handed to `is_engine_code`: a string or anything else. */
  datatype PyValue = PyStr(s: string) | PyOther

  /** A character the code may hold, in either letter case. */
  predicate CodeChar(c: char) {
    LowerChar(c) in "-bpgud"
  }

  /** `is_engine_code`: a string of exactly five code characters, case-insensitively. */
  predicate IsEngineCode(v: PyValue) {
    if !v.PyStr? then false
    else if |v.s| != 5 then false
    else forall i :: 0 <= i < |v.s| ==> CodeChar(v.s[i])
  }

  /** Letter case does not matter to the validator. */
  lemma EngineCodeIgnoresCase(s: string)
    ensures IsEngineCode(PyStr(s)) == IsEngineCode(PyStr(Lower(s)))
  {
    forall i | 0 <= i < |s| ensures CodeChar(s[i]) == CodeChar(Lower(s)[i]) {
      assert LowerChar(LowerChar(s[i])) == LowerChar(s[i]);
    }
  }

  /** Every code the encoder writes passes the validator. */
  lemma CodeIsEngineCode(names: seq<string>)
    ensures IsEngineCode(PyStr(Code(names)))
  {
    forall i | 0 <= i < 5 ensures CodeChar(Code(names)[i]) {
      CodeMarksPresentEngines(names, CodeOrder[i]);
    }
  }

  // ---------------------------------------------------------------------------
  // get_engine_names_from_code

  /** The variant `k` if its flag is set, else nothing. */
  function Pick(flag: bool, k: EngineKind): seq<EngineKind> {
    if flag then [k] else []
  }

  /** The variants whose flag is set, in code order; `flags` is indexed by `Slot`. */
  function Selected(flags: seq<bool>): seq<EngineKind>
    requires |flags| == 5
  {
    Pick(flags[0], Bully) + Pick(flags[1], Patient) + Pick(flags[2], Greedy)
    + Pick(flags[3], UpSteering) + Pick(flags[4], DownSteering)
  }

  /** A variant is selected exactly when its flag is set. */
  lemma SelectedMembers(flags: seq<bool>, k: EngineKind)
    requires |flags| == 5
    ensures k in Selected(flags) <==> flags[Slot(k)]
  {
  }

  /** The selected variants are in strictly increasing code order. */
  lemma SelectedInOrder(flags: seq<bool>)
    requires |flags| == 5
    ensures forall i, j :: 0 <= i < j < |Selected(flags)| ==> Slot(Selected(flags)[i]) < Slot(Selected(flags)[j])
  {
  }

  /** The flags the decoder tests: each variant's upper-case letter occurs somewhere in the code. */
  function CodeFlags(code: string): (flags: seq<bool>)
    ensures |flags| == 5
  {
    ['B' in code, 'P' in code, 'G' in code, 'U' in code, 'D' in code]
  }

  /** The variants named by a code. */
  function KindsFromCode(code: string): seq<EngineKind> {
    Selected(CodeFlags(code))
  }

  /** The class names of a list of variants. */
  function NamesOf(ks: seq<EngineKind>): (r: seq<string>)
    ensures |r| == |ks|
    ensures forall i :: 0 <= i < |ks| ==> r[i] == KindName(ks[i])
  {
    seq(|ks|, i requires 0 <= i < |ks| => KindName(ks[i]))
  }

  /** The list `get_engine_names_from_code` returns. */
  function NamesFromCode(code: string): seq<string> {
    NamesOf(KindsFromCode(code))
  }

  /** `get_engine_names_from_code`: the names are appended one variant at a time. */
  method EngineNamesFromCode(code: string) returns (names: seq<string>)
    ensures names == NamesFromCode(code)
  {
    names := [];
    ghost var kinds: seq<EngineKind> := [];
    if 'B' in code {
      NamesOfSnoc(kinds, Bully);
      names, kinds := names + ["BullyEngine"], kinds + [Bully];
    }
    assert kinds == Pick('B' in code, Bully);
    if 'P' in code {
      NamesOfSnoc(kinds, Patient);
      names, kinds := names + ["PatientEngine"], kinds + [Patient];
    }
    assert kinds == Pick('B' in code, Bully) + Pick('P' in code, Patient);
    if 'G' in code {
      NamesOfSnoc(kinds, Greedy);
      names, kinds := names + ["GreedyEngine"], kinds + [Greedy];
    }
    assert kinds == Pick('B' in code, Bully) + Pick('P' in code, Patient) + Pick('G' in code, Greedy);
    if 'U' in code {
      NamesOfSnoc(kinds, UpSteering);
      names, kinds := names + ["UpSteeringEngine"], kinds + [UpSteering];
    }
    assert kinds == Pick('B' in code, Bully) + Pick('P' in code, Patient) + Pick('G' in code, Greedy)
      + Pick('U' in code, UpSteering);
    if 'D' in code {
      NamesOfSnoc(kinds, DownSteering);
      names, kinds := names + ["DownSteeringEngine"], kinds + [DownSteering];
    }
    assert kinds == KindsFromCode(code);
  }

  lemma NamesOfSnoc(ks: seq<EngineKind>, k: EngineKind)
    ensures NamesOf(ks + [k]) == NamesOf(ks) + [KindName(k)]
  {
  }

  /** A variant is decoded exactly when its upper-case letter occurs anywhere in the code. */
  lemma DecodedKinds(code: string, k: EngineKind)
    ensures k in KindsFromCode(code) <==> Letter(k) in code
  {
    SelectedMembers(CodeFlags(code), k);
  }

  /** The decoded variants come in code order, so none comes twice. */
  lemma DecodedInCodeOrder(code: string)
    ensures var ks := KindsFromCode(code);
      forall i, j :: 0 <= i < j < |ks| ==> Slot(ks[i]) < Slot(ks[j])
  {
    SelectedInOrder(CodeFlags(code));
  }

  /** The decoded names have no repetition. */
  lemma DecodedNamesAreDistinct(code: string)
    ensures var names := NamesFromCode(code);
      forall i, j :: 0 <= i < j < |names| ==> names[i] != names[j]
  {
    var ks := KindsFromCode(code);
    var names := NamesFromCode(code);
    DecodedInCodeOrder(code);
    forall i, j | 0 <= i < j < |names| ensures names[i] != names[j] {
      if names[i] == names[j] {
        KindNameIsInjective(ks[i], ks[j]);
      }
    }
  }

  /** A class name is decoded exactly when its variant's upper-case letter occurs in the code. */
  lemma DecodedNames(code: string, k: EngineKind)
    ensures KindName(k) in NamesFromCode(code) <==> Letter(k) in code
  {
    var ks := KindsFromCode(code);
    DecodedKinds(code, k);
    if KindName(k) in NamesFromCode(code) {
      var i :| 0 <= i < |ks| && NamesFromCode(code)[i] == KindName(k);
      KindNameIsInjective(ks[i], k);
    }
    if k in ks {
      var i :| 0 <= i < |ks| && ks[i] == k;
      assert NamesFromCode(code)[i] == KindName(k);
    }
  }

  lemma KindNameIsInjective(k: EngineKind, l: EngineKind)
    requires KindName(k) == KindName(l)
    ensures k == l
  {
    assert |KindName(k)| == |KindName(l)|;
  }

  lemma LowerNameIsInjective(k: EngineKind, l: EngineKind)
    requires LowerName(k) == LowerName(l)
    ensures k == l
  {
    assert |LowerName(k)| == |LowerName(l)|;
  }

  /** The variants of a list of class names are recognised by name, in any letter case. */
  lemma PresentKinds(ks: seq<EngineKind>, k: EngineKind)
    ensures Present(NamesOf(ks), k) <==> k in ks
  {
    var lowered := Lowered(NamesOf(ks));
    forall i | 0 <= i < |ks| ensures lowered[i] == LowerName(ks[i]) {
      LowerKindName(ks[i]);
    }
    if Present(NamesOf(ks), k) {
      var i :| 0 <= i < |lowered| && lowered[i] == LowerName(k);
      LowerNameIsInjective(ks[i], k);
    }
    if k in ks {
      var i :| 0 <= i < |ks| && ks[i] == k;
      assert lowered[i] == LowerName(k);
    }
  }

  // ---------------------------------------------------------------------------
  // Round trips

  /** Which variants occur among the input names, indexed by `Slot`. */
  function PresentFlags(names: seq<string>): (flags: seq<bool>)
    ensures |flags| == 5
  {
    [Present(names, Bully), Present(names, Patient), Present(names, Greedy),
     Present(names, UpSteering), Present(names, DownSteering)]
  }

  /** The variants among the input names, each once, in code order. */
  function Recognised(names: seq<string>): seq<EngineKind> {
    Selected(PresentFlags(names))
  }

  /** A letter occurs in an encoded list exactly when its variant was named. */
  lemma LetterInCode(names: seq<string>, k: EngineKind)
    ensures Letter(k) in Code(names) <==> Present(names, k)
  {
    var code := Code(names);
    CodeMarksPresentEngines(names, k);
    if Letter(k) in code {
      var j :| 0 <= j < 5 && code[j] == Letter(k);
      SlotOfCodeOrder(j);
      CodeMarksPresentEngines(names, CodeOrder[j]);
      LetterIsInjective(CodeOrder[j], k);
    }
  }

  /** Decoding an encoded list gives the recognised names, de-duplicated, in code order. */
  lemma DecodeEncode(names: seq<string>)
    ensures NamesFromCode(Code(names)) == NamesOf(Recognised(names))
  {
    LetterInCode(names, Bully);
    LetterInCode(names, Patient);
    LetterInCode(names, Greedy);
    LetterInCode(names, UpSteering);
    LetterInCode(names, DownSteering);
    assert CodeFlags(Code(names)) == PresentFlags(names);
  }

  /** A code whose every position is its own letter or '-'. */
  predicate IsCanonical(code: string) {
    |code| == 5 && forall k :: code[Slot(k)] == Letter(k) || code[Slot(k)] == '-'
  }

  lemma CanonicalAt(code: string, k: EngineKind)
    requires IsCanonical(code)
    ensures code[Slot(k)] == Letter(k) || code[Slot(k)] == '-'
  {
  }

  /** Canonical codes pass the validator. */
  lemma CanonicalCodesAreEngineCodes(code: string)
    requires IsCanonical(code)
    ensures IsEngineCode(PyStr(code))
  {
    forall i | 0 <= i < 5 ensures CodeChar(code[i]) {
      SlotOfCodeOrder(i);
      CanonicalAt(code, CodeOrder[i]);
    }
  }

  /** In a canonical code a letter can only stand at its own position. */
  lemma LetterOnlyInItsSlot(code: string, k: EngineKind)
    requires IsCanonical(code)
    ensures Letter(k) in code <==> code[Slot(k)] == Letter(k)
  {
    if Letter(k) in code {
      var j :| 0 <= j < 5 && code[j] == Letter(k);
      SlotOfCodeOrder(j);
      CanonicalAt(code, CodeOrder[j]);
      LetterIsInjective(CodeOrder[j], k);
    }
  }

  /** Encoding the names decoded from a canonical code gives the code back. */
  lemma EncodeDecode(code: string)
    requires IsCanonical(code)
    ensures Code(NamesFromCode(code)) == code
  {
    MarkOfDecoded(code, Bully);
    MarkOfDecoded(code, Patient);
    MarkOfDecoded(code, Greedy);
    MarkOfDecoded(code, UpSteering);
    MarkOfDecoded(code, DownSteering);
    FiveMarks(NamesFromCode(code), code);
  }

  /** A code agrees with the encoding of `names` when each of its five positions does. */
  lemma FiveMarks(names: seq<string>, code: string)
    requires |code| == 5
    requires Mark(names, Bully) == code[0] && Mark(names, Patient) == code[1] && Mark(names, Greedy) == code[2]
    requires Mark(names, UpSteering) == code[3] && Mark(names, DownSteering) == code[4]
    ensures Code(names) == code
  {
  }

  lemma MarkOfDecoded(code: string, k: EngineKind)
    requires IsCanonical(code)
    ensures Mark(NamesFromCode(code), k) == code[Slot(k)]
  {
    PresentKinds(KindsFromCode(code), k);
    DecodedKinds(code, k);
    LetterOnlyInItsSlot(code, k);
  }

  /**
   * The validator accepts lower-case letters, but the decoder only recognises
   * upper-case ones: "b----" is a valid code that names no engine.
   */
  lemma LowerCaseCodeNamesNothing()
    ensures IsEngineCode(PyStr("b----"))
    ensures NamesFromCode("b----") == []
  {
    assert CodeFlags("b----") == [false, false, false, false, false];
  }
}
