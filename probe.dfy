/** Locating `nvidia-smi` per platform. `shutil.which` is an oracle parameter: it maps a command
    or path to the resolved executable, or to None. */
module Probe {
  import opened Outcomes

  const Nvsmi: string := "nvidia-smi"
  const NvsmiArgs: string := "--list-gpus"

  /** `WIN_PATHS`: the directories searched on Windows, in order. */
  const WinPaths: seq<string> := ["C:\\Program Files\\NVIDIA Corporation\\NVSMI\\"]

  /** `os.path.join(dir, file)` on Windows for a relative `file`: a separator is inserted unless
      `dir` is empty, ends in a separator, or is a bare drive such as `C:`. */
  function WinJoin(dir: string, file: string): (r: string)
    ensures r == dir + file || r == dir + "\\" + file
    ensures dir == [] || dir[|dir| - 1] == '\\' || dir[|dir| - 1] == '/' ==> r == dir + file
    ensures |dir| == 2 && dir[1] == ':' ==> r == dir + file
    ensures dir != [] && dir[|dir| - 1] != '\\' && dir[|dir| - 1] != '/' && !(|dir| == 2 && dir[1] == ':') ==>
              r == dir + "\\" + file
  {
    if dir == [] || dir[|dir| - 1] == '\\' || dir[|dir| - 1] == '/' || (|dir| == 2 && dir[1] == ':')
    then dir + file
    else dir + "\\" + file
  }

  /** `nvidia-smi.exe` joined onto each directory, in order. */
  function Candidates(dirs: seq<string>): seq<string>
  {
    seq(|dirs|, i requires 0 <= i < |dirs| => WinJoin(dirs[i], Nvsmi + ".exe"))
  }

  /** `which` resolves `paths[i]` and none of the paths before it. */
  ghost predicate FirstResolvedAt(paths: seq<string>, which: string -> Option<string>, i: int)
  {
    0 <= i < |paths| && which(paths[i]).Some? && forall j | 0 <= j < i :: which(paths[j]).None?
  }

  /** The loop of `get_nvsmi_win`: the first path that `which` resolves, returned as it was
      built (not as `which` resolved it); None when it resolves none of them. */
  function FirstResolved(paths: seq<string>, which: string -> Option<string>): (r: Option<string>)
    ensures r.Some? ==> exists i :: FirstResolvedAt(paths, which, i) && r.value == paths[i]
    ensures r.None? <==> forall i | 0 <= i < |paths| :: which(paths[i]).None?
  {
    if paths == [] then None
    else if which(paths[0]).Some? then
      assert FirstResolvedAt(paths, which, 0);
      Some(paths[0])
    else
      var r := FirstResolved(paths[1..], which);
      assert r.Some? ==> exists i :: FirstResolvedAt(paths, which, i) && r.value == paths[i] by {
        if r.Some? {
          var i :| FirstResolvedAt(paths[1..], which, i) && r.value == paths[1..][i];
          assert FirstResolvedAt(paths, which, i + 1);
        }
      }
      assert r.None? ==> forall i | 0 <= i < |paths| :: which(paths[i]).None? by {
        if r.None? {
          forall i | 0 <= i < |paths| ensures which(paths[i]).None? {
            if i > 0 { assert paths[i] == paths[1..][i - 1]; }
          }
        }
      }
      r
  }

  /** `get_nvsmi_win`. */
  function GetNvsmiWin(which: string -> Option<string>): Option<string>
  {
    FirstResolved(Candidates(WinPaths), which)
  }

  /** On Windows the tool is found exactly when `which` resolves the one known install path,
      and then that path itself (not what `which` returned) is used. */
  lemma GetNvsmiWinPath(which: string -> Option<string>)
    ensures WinJoin(WinPaths[0], Nvsmi + ".exe") == "C:\\Program Files\\NVIDIA Corporation\\NVSMI\\nvidia-smi.exe"
    ensures GetNvsmiWin(which) ==
              if which("C:\\Program Files\\NVIDIA Corporation\\NVSMI\\nvidia-smi.exe").Some?
              then Some("C:\\Program Files\\NVIDIA Corporation\\NVSMI\\nvidia-smi.exe") else None
  {
    var path := WinJoin(WinPaths[0], Nvsmi + ".exe");
    assert path == "C:\\Program Files\\NVIDIA Corporation\\NVSMI\\nvidia-smi.exe";
    assert Candidates(WinPaths) == [path];
  }

  /** `get_nvsmi_unix`: whatever the executable search path resolves `nvidia-smi` to. */
  function GetNvsmiUnix(which: string -> Option<string>): Option<string>
  {
    which(Nvsmi)
  }

  /** `get_nvsmi_macos`: not supported, never a path. */
  function GetNvsmiMacos(): Option<string>
  {
    None
  }

  /** The platform dispatch of `get_sys_cards` on `platform.system()`. */
  function LocateNvsmi(system: string, which: string -> Option<string>): Option<string>
  {
    if system == "Windows" then GetNvsmiWin(which)
    else if system == "Darwin" then GetNvsmiMacos()
    else GetNvsmiUnix(which)
  }

  /** On macOS no tool is ever located; elsewhere the tool is located exactly when `which`
      resolves the platform's candidate. */
  lemma LocateNvsmiCases(system: string, which: string -> Option<string>)
    ensures system == "Darwin" ==> LocateNvsmi(system, which).None?
    ensures system == "Windows" ==>
              (LocateNvsmi(system, which).Some? <==>
                 exists i | 0 <= i < |WinPaths| :: which(Candidates(WinPaths)[i]).Some?)
    ensures system != "Windows" && system != "Darwin" ==> LocateNvsmi(system, which) == which(Nvsmi)
  {
  }
}
