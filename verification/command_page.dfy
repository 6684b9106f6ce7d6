/** The page the integrator (scripts/integrate-release.js, `createCommandPage`)
    generates for a page-worthy command, and the flag names that page builds
    from its form state, which undo the integrator's form-field naming. */
module CommandPage {
  import opened Wrappers
  import opened Text
  import opened IntegratorCodegen

  /** The text of a generated page: the fixed segments around the places
      where the command, page name and release tag go. */
  const PageSegments: seq<string> := [
    "import React, { useState, useEffect } from 'react';\n"
    + "import { invoke } from '@tauri-apps/api/core';\n"
    + "import CommandOutput from '../components/CommandOutput';\n"
    + "\n"
    + "// Auto-generated page for 'container ",
    "' command\n"
    + "// Generated from ",
    " release\n"
    + "\n"
    + "export default function ",
    "() {\n"
    + "  const [loading, setLoading] = useState(false);\n"
    + "  const [output, setOutput] = useState('');\n"
    + "  const [error, setError] = useState('');\n"
    + "  const [formData, setFormData] = useState({});\n"
    + "\n"
    + "  const execute",
    " = async () => {\n"
    + "    setLoading(true);\n"
    + "    setError('');\n"
    + "    setOutput('');\n"
    + "\n"
    + "    try {\n"
    + "      const result = await invoke('execute_container_command', {\n"
    + "        args: ['",
    "', ...Object.entries(formData)\n"
    + "          .filter(([key, value]) => value)\n"
    + "          .flatMap(([key, value]) => [`--${key.replace(/([A-Z])/g, '-$1').toLowerCase()}`, value])]\n"
    + "      });\n"
    + "\n"
    + "      setOutput(result);\n"
    + "    } catch (err) {\n"
    + "      setError(err.toString());\n"
    + "    } finally {\n"
    + "      setLoading(false);\n"
    + "    }\n"
    + "  };\n"
    + "\n"
    + "  return (\n"
    + "    <div className=\"p-6 max-w-6xl mx-auto\">\n"
    + "      <div className=\"mb-6\">\n"
    + "        <h1 className=\"text-3xl font-bold text-gray-900\">Container ",
    "</h1>\n"
    + "        <p className=\"text-gray-600 mt-2\">\n"
    + "          Execute 'container ",
    "' command with advanced options\n"
    + "        </p>\n"
    + "        <div className=\"mt-2 px-3 py-1 bg-blue-100 text-blue-800 text-sm rounded-md inline-block\">\n"
    + "          New in ",
    "\n"
    + "        </div>\n"
    + "      </div>\n"
    + "\n"
    + "      <div className=\"grid grid-cols-1 lg:grid-cols-2 gap-6\">\n"
    + "        <div className=\"space-y-4\">\n"
    + "          <div className=\"bg-white rounded-lg shadow-md p-6\">\n"
    + "            <h2 className=\"text-xl font-semibold mb-4\">Command Options</h2>\n"
    + "            \n"
    + "            {/* Add form fields based on detected flags */}\n"
    + "            <div className=\"space-y-4\">\n"
    + "              <button\n"
    + "                onClick={execute",
    "}\n"
    + "                disabled={loading}\n"
    + "                className=\"w-full bg-blue-600 text-white py-2 px-4 rounded-md hover:bg-blue-700 disabled:opacity-50 transition-colors\"\n"
    + "              >\n"
    + "                {loading ? 'Executing...' : `Execute container ",
    "`}\n"
    + "              </button>\n"
    + "            </div>\n"
    + "          </div>\n"
    + "        </div>\n"
    + "\n"
    + "        <div className=\"space-y-4\">\n"
    + "          <CommandOutput \n"
    + "            output={output} \n"
    + "            error={error} \n"
    + "            loading={loading}\n"
    + "            title={`container ",
    " output`}\n"
    + "          />\n"
    + "        </div>\n"
    + "      </div>\n"
    + "    </div>\n"
    + "  );\n"
    + "}"
  ]

  /** The page generated for `cmd`, named `name`, for release `tag`. */
  function PageTemplate(cmd: string, name: string, tag: string): string {
    Fill(PageSegments, [cmd, tag, name, name, cmd, name, cmd, tag, name, cmd, cmd])
  }

  // ---------------------------------------------------------------------------
  // Form keys and flags
  // ---------------------------------------------------------------------------

  /** `key.replace(/([A-Z])/g, '-$1')`: a dash before every capital. */
  function Dashify(key: string): (r: string)
    ensures |r| >= |key|
    decreases |key|
  {
    if |key| == 0 then []
    else (if IsUpper(key[0]) then ['-', key[0]] else [key[0]]) + Dashify(key[1..])
  }

  /** The flag the generated page passes for a form key:
      `--` and the key with each capital turned into a dash and the letter. */
  function PageFlag(key: string): (r: string)
    ensures StartsWith(r, "--")
  {
    "--" + Lower(Dashify(key))
  }

  /** A dash-free form key survives the trip through the page's flag and
      back through the integrator's field naming. */
  lemma FieldNameOfPageFlag(key: string)
    requires '-' !in key
    ensures FieldName(PageFlag(key)) == key
  {
    var t := Lower(Dashify(key));
    assert OccursAt(PageFlag(key), "--", 0);
    assert IndexOf(PageFlag(key), "--") == Some(0);
    assert RemoveFirst(PageFlag(key), "--") == t;
    CamelCaseUndoesDashify(key);
  }

  lemma LowerAppend(a: string, b: string)
    ensures Lower(a + b) == Lower(a) + Lower(b)
  {
  }

  lemma {:induction false} CamelCaseUndoesDashify(key: string)
    requires '-' !in key
    ensures CamelCase(Lower(Dashify(key))) == key
    decreases |key|
  {
    if |key| > 0 {
      var c := key[0];
      var rest := Dashify(key[1..]);
      assert key == [c] + key[1..];
      DashifyCons(c, key[1..]);
      assert '-' !in key[1..];
      CamelCaseUndoesDashify(key[1..]);
      if IsUpper(c) {
        LowerAppend(['-', c], rest);
        CamelCaseDashPair(c, Lower(rest));
      } else {
        LowerAppend([c], rest);
        CamelCasePlain(c, Lower(rest));
      }
    }
  }

  /** `CamelCase` on a dash and a lower-cased capital: the capital again. */
  lemma CamelCaseDashPair(c: char, rest: string)
    requires IsUpper(c)
    ensures CamelCase(Lower(['-', c]) + rest) == [c] + CamelCase(rest)
  {
    var s := Lower(['-', c]) + rest;
    assert s[0] == '-' && s[1] == ToLowerChar(c) && IsLower(s[1]);
    assert s[2..] == rest;
    assert ToUpperChar(ToLowerChar(c)) == c;
  }

  /** `CamelCase` on a character that is neither a dash nor a capital. */
  lemma CamelCasePlain(c: char, rest: string)
    requires c != '-' && !IsUpper(c)
    ensures CamelCase(Lower([c]) + rest) == [c] + CamelCase(rest)
  {
    var s := Lower([c]) + rest;
    assert s[0] == c;
    assert s[1..] == rest;
  }

  /** Kebab case: no capitals, and every dash followed by a lower-case letter. */
  predicate IsKebab(t: string) {
    forall i :: 0 <= i < |t| ==> KebabAt(t, i)
  }

  predicate KebabAt(t: string, i: int)
    requires 0 <= i < |t|
  {
    !IsUpper(t[i]) && (t[i] == '-' ==> i + 1 < |t| && IsLower(t[i + 1]))
  }

  /** A kebab-case flag survives the trip through the integrator's field
      naming and back through the page's flag. */
  lemma PageFlagOfFieldName(t: string)
    requires IsKebab(t)
    ensures PageFlag(FieldName("--" + t)) == "--" + t
  {
    var f := "--" + t;
    assert OccursAt(f, "--", 0);
    assert IndexOf(f, "--") == Some(0);
    assert RemoveFirst(f, "--") == t;
    DashifyUndoesCamelCase(t);
  }

  lemma KebabSuffix(t: string, k: int)
    requires IsKebab(t) && 0 <= k <= |t|
    ensures IsKebab(t[k..])
  {
    var u := t[k..];
    forall i | 0 <= i < |u|
      ensures KebabAt(u, i)
    {
      var j := k + i;
      assert u[i] == t[j];
      assert KebabAt(t, j);
      if u[i] == '-' {
        assert u[i + 1] == t[j + 1];
      }
    }
    assert IsKebab(u);
  }

  lemma {:induction false} DashifyUndoesCamelCase(t: string)
    requires IsKebab(t)
    ensures Lower(Dashify(CamelCase(t))) == t
    decreases |t|
  {
    if |t| > 0 {
      assert KebabAt(t, 0);
      if t[0] == '-' {
        KebabSuffix(t, 2);
        DashifyUndoesCamelCase(t[2..]);
        DashPairStep(t);
      } else {
        KebabSuffix(t, 1);
        DashifyUndoesCamelCase(t[1..]);
        PlainStep(t);
      }
    }
  }

  lemma DashPairStep(t: string)
    requires |t| >= 2 && t[0] == '-' && IsLower(t[1])
    requires Lower(Dashify(CamelCase(t[2..]))) == t[2..]
    ensures Lower(Dashify(CamelCase(t))) == t
  {
    CamelCaseDash(t);
    DashPairJoin(t, CamelCase(t), CamelCase(t[2..]));
  }

  /** `DashPairStep` with the camel-cased texts as plain values. */
  lemma DashPairJoin(t: string, cc: string, rest: string)
    requires |t| >= 2 && t[0] == '-' && IsLower(t[1])
    requires cc == [ToUpperChar(t[1])] + rest
    requires Lower(Dashify(rest)) == t[2..]
    ensures Lower(Dashify(cc)) == t
  {
    LowerDashUpper(t[1]);
    DashifyCons(ToUpperChar(t[1]), rest);
    LowerPair(t[1], Dashify(rest), t[2..]);
    assert t == ['-', t[1]] + t[2..];
  }

  /** Lower-casing a dash, a capital and a text. */
  lemma LowerPair(c: char, x: string, rest: string)
    requires IsLower(c) && Lower(x) == rest
    ensures Lower(['-', ToUpperChar(c)] + x) == ['-', c] + rest
  {
    LowerDashUpper(c);
    LowerAppend(['-', ToUpperChar(c)], x);
  }

  /** `CamelCase` on a dash followed by a lower-case letter. */
  lemma CamelCaseDash(t: string)
    requires |t| >= 2 && t[0] == '-' && IsLower(t[1])
    ensures CamelCase(t) == [ToUpperChar(t[1])] + CamelCase(t[2..])
  {
  }

  lemma LowerDashUpper(c: char)
    requires IsLower(c)
    ensures IsUpper(ToUpperChar(c)) && Lower(['-', ToUpperChar(c)]) == ['-', c]
  {
  }

  /** `Dashify` on a string with a known first character. */
  lemma DashifyCons(c: char, rest: string)
    ensures Dashify([c] + rest) == (if IsUpper(c) then ['-', c] else [c]) + Dashify(rest)
  {
    assert ([c] + rest)[1..] == rest;
  }

  lemma PlainStep(t: string)
    requires |t| >= 1 && t[0] != '-' && !IsUpper(t[0])
    requires Lower(Dashify(CamelCase(t[1..]))) == t[1..]
    ensures Lower(Dashify(CamelCase(t))) == t
  {
    var rest := CamelCase(t[1..]);
    assert CamelCase(t) == [t[0]] + rest;
    DashifyCons(t[0], rest);
    LowerAppend([t[0]], Dashify(rest));
    assert Lower([t[0]]) == [t[0]];
    assert t == [t[0]] + t[1..];
  }
}
