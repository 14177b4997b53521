/**
 * The processor environment: the key-value dictionary through which the
 * packaging framework hands inputs to a processor and reads its outputs.
 */
module Environment {
  import opened Wrappers

  type Env = map<string, string>

  /** `env.get(key)`: the value, or None when the key is absent. */
  function Get(env: Env, key: string): (r: Option<string>)
    ensures r.Some? <==> key in env
    ensures r.Some? ==> r.value == env[key]
  {
    if key in env then Some(env[key]) else None
  }

  /** `env.get(key, default)`. */
  function GetOr(env: Env, key: string, default: string): (r: string)
    ensures key in env ==> r == env[key]
    ensures key !in env ==> r == default
  {
    if key in env then env[key] else default
  }
}
