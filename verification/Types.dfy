/**
  The vocabulary shared by the trace engine and its consumers: the step
  kinds a snapshot is tagged with, the snapshot record itself, and the two
  lookup tables that give each step kind its title and explanation.
*/
module Types {
  import opened Options

  /** The five step kinds, declared in the order of their numeric codes. */
  datatype AlgorithmStep =
    | Initialize
    | MoveRightPointer
    | DetectDuplicate
    | MoveLeftPointer
    | UpdateResult

  /** The numeric value of each member of the step enumeration. */
  function StepCode(s: AlgorithmStep): (code: nat)
    ensures code < 5
    ensures code == 0 <==> s == Initialize
    ensures code == 4 <==> s == UpdateResult
  {
    match s
    case Initialize => 0
    case MoveRightPointer => 1
    case DetectDuplicate => 2
    case MoveLeftPointer => 3
    case UpdateResult => 4
  }

  /** Reads a numeric code back as a step kind; only 0..4 name a step. */
  function StepFromCode(code: int): (r: Option<AlgorithmStep>)
    ensures r.Some? <==> 0 <= code < 5
    ensures r.Some? ==> StepCode(r.value) == code
  {
    if code == 0 then Some(Initialize)
    else if code == 1 then Some(MoveRightPointer)
    else if code == 2 then Some(DetectDuplicate)
    else if code == 3 then Some(MoveLeftPointer)
    else if code == 4 then Some(UpdateResult)
    else None
  }

  /** Codes and steps are in one-to-one correspondence: exactly five steps, coded 0..4. */
  lemma StepCodesAreABijection()
    ensures forall s: AlgorithmStep :: StepFromCode(StepCode(s)) == Some(s)
    ensures forall s: AlgorithmStep, t: AlgorithmStep :: StepCode(s) == StepCode(t) ==> s == t
    ensures forall code: int :: 0 <= code < 5 ==> StepFromCode(code).Some?
    ensures StepFromCode(4) == Some(UpdateResult)
  {
    forall s: AlgorithmStep ensures StepFromCode(StepCode(s)) == Some(s) {
      match s
      case Initialize =>
      case MoveRightPointer =>
      case DetectDuplicate =>
      case MoveLeftPointer =>
      case UpdateResult =>
    }
  }

  /**
    One snapshot of the sliding-window run. `duplicateFound` is always
    present; `duplicateChar` is optional.
  */
  datatype AlgorithmState = AlgorithmState(
    inputString: string,
    leftPointer: int,
    rightPointer: int,
    currentWindow: string,
    charSet: set<char>,
    maxLength: int,
    maxSubstring: string,
    step: AlgorithmStep,
    duplicateFound: bool,
    duplicateChar: Option<char>)

  /** The short title shown for each step kind. */
  const StepDescriptions: map<AlgorithmStep, string> := map[
    Initialize := "初始化窗口",
    MoveRightPointer := "右指针向右移动",
    DetectDuplicate := "检测到重复字符",
    MoveLeftPointer := "左指针向右移动",
    UpdateResult := "更新最长子串"]

  /** The longer explanation shown for each step kind. */
  const StepExplanations: map<AlgorithmStep, string> := map[
    Initialize := "初始化窗口，设置左右指针指向字符串起始位置，准备开始执行算法。",
    MoveRightPointer := "右指针向右移动一位，扩展当前窗口，并检查是否引入重复字符。",
    DetectDuplicate := "检测到重复字符！窗口中已存在该字符，需要移动左指针调整窗口。",
    MoveLeftPointer := "左指针向右移动至重复字符后一位，保持窗口内无重复字符。",
    UpdateResult := "当前窗口长度超过先前记录的最大长度，更新最长无重复子串记录。"]

  /** Both tables have a non-empty entry for every step, and no two steps share a title. */
  lemma TablesCoverEveryStep()
    ensures forall s: AlgorithmStep :: s in StepDescriptions && StepDescriptions[s] != ""
    ensures forall s: AlgorithmStep :: s in StepExplanations && StepExplanations[s] != ""
    ensures forall s: AlgorithmStep, t: AlgorithmStep ::
      s in StepDescriptions && t in StepDescriptions && StepDescriptions[s] == StepDescriptions[t] ==> s == t
  {
    forall s: AlgorithmStep
      ensures s in StepDescriptions && StepDescriptions[s] != ""
      ensures s in StepExplanations && StepExplanations[s] != ""
    {
      match s
      case Initialize =>
      case MoveRightPointer =>
      case DetectDuplicate =>
      case MoveLeftPointer =>
      case UpdateResult =>
    }
    forall s: AlgorithmStep, t: AlgorithmStep | StepDescriptions[s] == StepDescriptions[t]
      ensures s == t
    {
      assert StepDescriptions[s][0] == StepDescriptions[t][0];
      match s
      case Initialize => assert StepDescriptions[s][0] == '初';
      case MoveRightPointer => assert StepDescriptions[s][0] == '右';
      case DetectDuplicate => assert StepDescriptions[s][0] == '检';
      case MoveLeftPointer => assert StepDescriptions[s][0] == '左';
      case UpdateResult => assert StepDescriptions[s][0] == '更';
    }
  }
}
