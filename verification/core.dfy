/** The interactive shell's prompt, which shows the default environment and
    cluster. */
module Core {
  import opened Base
  import opened Settings

  const PromptOpen := "(XXL["
  const PromptClose := "]) "

  /** "(XXL[" env "|" cluster "]) " */
  function Prompt(env: string, cluster: string): string {
    PromptOpen + env + "|" + cluster + PromptClose
  }

  /** The first index of c in s, if any. */
  function IndexOf(s: string, c: char): (r: Option<nat>)
    ensures r.Some? ==> r.value < |s| && s[r.value] == c && c !in s[..r.value]
    ensures r.None? ==> c !in s
  {
    if s == [] then None
    else if s[0] == c then Some(0)
    else match IndexOf(s[1..], c)
      case None => None
      case Some(i) =>
        assert s[..i + 1] == [s[0]] + s[1..][..i];
        Some(i + 1)
  }

  /** Reads the environment and cluster back from a prompt: the text between
      the opening and the first '|', and between it and the closing. */
  function ParsePrompt(p: string): Option<(string, string)> {
    if |p| < |PromptOpen| + |PromptClose| || p[..|PromptOpen|] != PromptOpen || p[|p| - |PromptClose|..] != PromptClose then None
    else
      var body := p[|PromptOpen|..|p| - |PromptClose|];
      match IndexOf(body, '|')
      case None => None
      case Some(i) => Some((body[..i], body[i + 1..]))
  }

  /** `get_prompt` with a context: the prompt of the default environment and
      cluster. When the environment id has no '|', both can be read back. */
  function GetPrompt(s: Settings): (p: string)
    reads s
    ensures '|' !in s.defaultEnv ==> ParsePrompt(p) == Some((s.defaultEnv, s.defaultCluster))
    ensures p == Prompt(s.defaultEnv, s.defaultCluster)
  {
    PromptRoundTrip(s.defaultEnv, s.defaultCluster);
    Prompt(s.defaultEnv, s.defaultCluster)
  }

  /** The prompt is read back to the environment and cluster it shows. */
  lemma PromptRoundTrip(env: string, cluster: string)
    ensures '|' !in env ==> ParsePrompt(Prompt(env, cluster)) == Some((env, cluster))
  {
    if '|' in env {
      return;
    }
    var p := Prompt(env, cluster);
    assert p[..|PromptOpen|] == PromptOpen;
    assert p[|p| - |PromptClose|..] == PromptClose;
    var body := p[|PromptOpen|..|p| - |PromptClose|];
    assert body == env + "|" + cluster;
    assert body[|env|] == '|' && body[..|env|] == env;
    assert IndexOf(body, '|') == Some(|env|);
    assert body[|env| + 1..] == cluster;
  }

  /** An environment id holding '|' makes two settings show the same prompt. */
  lemma PromptAmbiguous()
    ensures Prompt("a|b", "c") == Prompt("a", "b|c")
  {
  }
}
