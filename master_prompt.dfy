/** The composite evaluation prompt the engine sends to the evaluator
    (`GradingEngine._build_master_grading_prompt`): the assignment name, the
    participant's prompt, the three execution outputs each cut to a preview,
    the golden output when there is one, the requirements when there are
    some, and the fixed scoring rubric with its JSON answer format. */
module MasterPrompt {
  import opened Wrappers
  import opened PyText

  /** Characters of an output or golden answer that the evaluator sees. */
  const PreviewLimit: nat := 1500

  /** `s[:1500]` followed by "..." when something was cut off. */
  function Preview(s: string): (p: string)
    ensures |p| <= PreviewLimit + 3
    ensures |s| <= PreviewLimit ==> p == s
    ensures |s| > PreviewLimit ==>
      |p| == PreviewLimit + 3 && p[..PreviewLimit] == s[..PreviewLimit] && p[PreviewLimit..] == "..."
  {
    if |s| > PreviewLimit then s[..PreviewLimit] + "..." else s
  }

  /** Python truthiness of an optional string: present and not empty. */
  predicate Truthy(o: Option<string>) {
    o.Some? && o.value != ""
  }

  function Header(assignmentName: string, participantPrompt: string): string {
    "# Prompt Engineering Competition Evaluation\n\n## Assignment: " + assignmentName +
    "\n\n## Participant's Prompt:\n```\n" + participantPrompt +
    "\n```\n\n## Execution Results (3 runs with temperature=0.1):\n\n"
  }

  /** The block that shows one execution output; `run` is "1", "2" or "3". */
  function OutputBlock(run: string, output: string): string {
    "### Output " + run + ":\n```\n" + Preview(output) + "\n```\n"
  }

  function GoldenBlock(golden: Option<string>): string {
    if Truthy(golden) then
      "\n## Golden Output (Expected Result):\n```\n" + Preview(golden.value) + "\n```\n"
    else ""
  }

  function RequirementsBlock(requirements: Option<string>): string {
    if Truthy(requirements) then "\n## Requirements & Rubric:\n" + requirements.value + "\n" else ""
  }

  /** The fixed rubric (accuracy 50, clarity 30, consistency 20) and the JSON
      answer format, line by line as the engine writes them; the empty first
      and last lines give the block its leading and trailing newline. */
  const RubricLines: seq<string> := [
      "",
      "## Evaluation Criteria:",
      "",
      "### 1. 정확성 (Prompt Accuracy) - 50점",
      "- 50점: 프롬프트 실행 결과가 목표 산출물과 내용/형식 모두 일치",
      "- 30점: 핵심 내용은 일치하나, 일부 누락 요소가 있거나 형식이 불일치",
      "- 20점 이하: 주요 내용이 누락되거나 구조 자체가 다름",
      "",
      "### 2. 명확성 (Prompt Clarity) - 30점",
      "- 30점: 명확한 역할 지시(예: '너는 데이터 분석가') + 단계별 수행 지침 + 논리적이고 직관적",
      "- 20점: 이해 가능하지만 일부 모호한 표현이 포함됨",
      "- 10점 이하: 구조나 지시문이 애매하거나 모순적",
      "",
      "### 3. 구성 및 검증 (Prompt Validation & Consistency) - 20점",
      "- 20점: 재실행 시 동일한 결과가 나오며 편차가 없음",
      "- 10점: 경미한 편차가 있으나 핵심 내용은 유지됨",
      "- 10점 이하: 매 실행마다 크게 다른 결과가 나옴",
      "",
      "## Output Format (JSON):",
      "{",
      "  \"accuracy_score\": 50,",
      "  \"accuracy_feedback\": \"Detailed explanation...\",",
      "  \"clarity_score\": 30,",
      "  \"clarity_feedback\": \"Detailed explanation...\",",
      "  \"consistency_score\": 20,",
      "  \"consistency_feedback\": \"Detailed explanation with output comparison...\",",
      "  \"total_score\": 100,",
      "  \"overall_feedback\": \"Summary of strengths and areas for improvement...\"",
      "}",
      "",
      "Evaluate objectively and provide constructive feedback in Korean.",
      ""
    ]

  const EvaluationCriteria: string := Join(RubricLines, "\n")

  function BuildMasterPrompt(participantPrompt: string, outputs: seq<string>, golden: Option<string>,
                             requirements: Option<string>, assignmentName: string): string
    requires |outputs| >= 3
  {
    Header(assignmentName, participantPrompt) +
    OutputBlock("1", outputs[0]) + "\n" + OutputBlock("2", outputs[1]) + "\n" + OutputBlock("3", outputs[2]) +
    GoldenBlock(golden) + RequirementsBlock(requirements) + EvaluationCriteria
  }

  predicate OccursAt(s: string, part: string, i: nat) {
    i + |part| <= |s| && s[i..i + |part|] == part
  }

  /** The prompt shows the three outputs, each in its own block, in run
      order; the golden block (empty when there is no golden output) comes
      right after the third, and the prompt ends with the fixed rubric. */
  lemma OutputsShownInOrder(participantPrompt: string, outputs: seq<string>, golden: Option<string>,
                            requirements: Option<string>, assignmentName: string)
    returns (i1: nat, i2: nat, i3: nat, i4: nat)
    requires |outputs| >= 3
    ensures var p := BuildMasterPrompt(participantPrompt, outputs, golden, requirements, assignmentName);
      && i1 < i2 < i3
      && OccursAt(p, OutputBlock("1", outputs[0]), i1)
      && OccursAt(p, OutputBlock("2", outputs[1]), i2)
      && OccursAt(p, OutputBlock("3", outputs[2]), i3)
      && i4 == i3 + |OutputBlock("3", outputs[2])|
      && OccursAt(p, GoldenBlock(golden), i4)
      && |EvaluationCriteria| <= |p|
      && OccursAt(p, EvaluationCriteria, |p| - |EvaluationCriteria|)
  {
    var h := Header(assignmentName, participantPrompt);
    var b1, b2, b3 := OutputBlock("1", outputs[0]), OutputBlock("2", outputs[1]), OutputBlock("3", outputs[2]);
    var g, r := GoldenBlock(golden), RequirementsBlock(requirements);
    assert BuildMasterPrompt(participantPrompt, outputs, golden, requirements, assignmentName)
        == h + b1 + "\n" + b2 + "\n" + b3 + g + r + EvaluationCriteria;
    i1, i2, i3, i4 := PiecesInOrder(h, b1, b2, b3, g, r, EvaluationCriteria);
  }

  /** Where each piece of `h + b1 + "\n" + b2 + "\n" + b3 + g + r + c` starts. */
  lemma PiecesInOrder(h: string, b1: string, b2: string, b3: string, g: string, r: string, c: string)
    returns (i1: nat, i2: nat, i3: nat, i4: nat)
    requires |b1| > 0 && |b2| > 0
    ensures var p := h + b1 + "\n" + b2 + "\n" + b3 + g + r + c;
      && i1 < i2 < i3
      && OccursAt(p, b1, i1) && OccursAt(p, b2, i2) && OccursAt(p, b3, i3)
      && i4 == i3 + |b3| && OccursAt(p, g, i4)
      && |c| <= |p| && OccursAt(p, c, |p| - |c|)
  {
    var p := h + b1 + "\n" + b2 + "\n" + b3 + g + r + c;
    var front := h + b1 + "\n" + b2 + "\n";
    i1 := |h|;
    i2 := |h| + |b1| + 1;
    i3 := |front|;
    i4 := i3 + |b3|;
    assert p[i1..i1 + |b1|] == b1 by {
      assert p == h + b1 + ("\n" + b2 + "\n" + b3 + g + r + c);
    }
    assert p[i2..i2 + |b2|] == b2 by {
      assert p == (h + b1 + "\n") + b2 + ("\n" + b3 + g + r + c);
    }
    assert p[i3..i3 + |b3|] == b3 by {
      assert p == front + b3 + (g + r + c);
    }
    assert p[i3 + |b3|..i3 + |b3| + |g|] == g by {
      assert p == (front + b3) + g + (r + c);
    }
    assert p[|p| - |c|..] == c by {
      assert p == (front + b3 + g + r) + c;
    }
  }
}
