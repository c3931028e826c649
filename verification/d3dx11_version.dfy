/**
 * D3DX11CheckVersion (dlls/d3dx11_43/d3dx11_43_main.c): the helper library
 * accepts a caller only when both SDK version numbers it was built against
 * are the ones this library implements.
 */
module D3dx11Version {
  /** D3D11_SDK_VERSION and D3DX11_SDK_VERSION from the public headers. */
  const D3D11_SDK_VERSION: nat := 7
  const D3DX11_SDK_VERSION: nat := 43

  /** The exported check; `UINT` arguments, `BOOL` result. */
  function CheckVersion(d3dSdkVer: nat, d3dxSdkVer: nat): (ok: bool)
    ensures d3dSdkVer != D3D11_SDK_VERSION ==> !ok
    ensures d3dxSdkVer != D3DX11_SDK_VERSION ==> !ok
    ensures d3dSdkVer == D3D11_SDK_VERSION && d3dxSdkVer == D3DX11_SDK_VERSION ==> ok
  {
    d3dSdkVer == D3D11_SDK_VERSION && d3dxSdkVer == D3DX11_SDK_VERSION
  }

  /** Exactly one pair of arguments is accepted. */
  lemma AcceptedPairIsUnique(a: nat, b: nat, c: nat, d: nat)
    requires CheckVersion(a, b) && CheckVersion(c, d)
    ensures a == c && b == d
  {
  }
}
