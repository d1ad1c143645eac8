/** The enrollment submission: the form posted to the CA's
    `certfnsh.asp` page. */
module Submission {
  import opened Http

  const SubmitPath := "/certsrv/certfnsh.asp"
  const FormContentType := "application/x-www-form-urlencoded"
  const TemplatePrefix := "CertificateTemplate:"

  /** The fields of the enrollment form. */
  datatype CertBody = CertBody(
    mode: string, certRequest: string, certAttrib: string,
    friendlyType: string, targetStoreFlags: string, saveCert: string)

  /** The form for a CSR and a template: a new request, kept on the CA, with
      the template named on an attribute line of its own. */
  function NewCertBody(csr: string, template: string): (b: CertBody)
    ensures b.mode == "newreq" && b.certRequest == csr
    ensures b.friendlyType == "Saved-Request Certificate" && b.targetStoreFlags == "0" && b.saveCert == "yes"
    ensures |b.certAttrib| == |TemplatePrefix| + |template| + 2
    ensures b.certAttrib[..|TemplatePrefix|] == TemplatePrefix && b.certAttrib[|b.certAttrib| - 2..] == "\r\n"
    ensures b.certAttrib[|TemplatePrefix|..|b.certAttrib| - 2] == template
  {
    CertBody("newreq", csr, TemplatePrefix + template + "\r\n", "Saved-Request Certificate", "0", "yes")
  }

  /** The form as key/value pairs, keyed by field name. */
  function FormValues(b: CertBody): (form: map<string, string>)
    ensures form.Keys == {"Mode", "CertRequest", "CertAttrib", "FriendlyType", "TargetStoreFlags", "SaveCert"}
    ensures form["Mode"] == b.mode && form["CertRequest"] == b.certRequest && form["CertAttrib"] == b.certAttrib
    ensures form["FriendlyType"] == b.friendlyType && form["TargetStoreFlags"] == b.targetStoreFlags
    ensures form["SaveCert"] == b.saveCert
  {
    map["Mode" := b.mode, "CertRequest" := b.certRequest, "CertAttrib" := b.certAttrib,
        "FriendlyType" := b.friendlyType, "TargetStoreFlags" := b.targetStoreFlags, "SaveCert" := b.saveCert]
  }

  /** buildCertificateRequest: a POST of the form to the host's submission
      page. The `attributes` argument is accepted and not used. */
  function BuildCertificateRequest(host: string, csr: string, template: string, attributes: string): (r: HttpRequest)
    ensures r.verb == "POST" && r.query == map[] && r.headers == map["Content-Type" := FormContentType]
    ensures |r.url| == 7 + |host| + |SubmitPath| && r.url[..7] == "http://"
    ensures r.url[7..7 + |host|] == host && r.url[7 + |host|..] == SubmitPath
    ensures r.form == FormValues(NewCertBody(csr, template))
  {
    HttpRequest("POST", "http://" + host + SubmitPath, map[],
                map["Content-Type" := FormContentType], FormValues(NewCertBody(csr, template)))
  }

  /** The fields the CA receives. */
  lemma SubmissionForm(host: string, csr: string, template: string, attributes: string)
    ensures var r := BuildCertificateRequest(host, csr, template, attributes);
      r.verb == "POST" && r.url == "http://" + host + "/certsrv/certfnsh.asp" && r.query == map[]
      && r.headers == map["Content-Type" := "application/x-www-form-urlencoded"]
      && r.form.Keys == {"Mode", "CertRequest", "CertAttrib", "FriendlyType", "TargetStoreFlags", "SaveCert"}
      && r.form["Mode"] == "newreq" && r.form["CertRequest"] == csr
      && r.form["CertAttrib"] == "CertificateTemplate:" + template + "\r\n"
      && r.form["FriendlyType"] == "Saved-Request Certificate"
      && r.form["TargetStoreFlags"] == "0" && r.form["SaveCert"] == "yes"
  {
  }

  /** The request depends on the host, the CSR and the template only, and
      determines all three: the extra attributes never reach the CA. */
  lemma SubmissionDeterminesInputs(host: string, csr: string, template: string, attributes: string,
                                   host': string, csr': string, template': string, attributes': string)
    ensures BuildCertificateRequest(host, csr, template, attributes) == BuildCertificateRequest(host', csr', template', attributes')
      <==> host == host' && csr == csr' && template == template'
  {
    var r, r' := BuildCertificateRequest(host, csr, template, attributes), BuildCertificateRequest(host', csr', template', attributes');
    if r == r' {
      var u, u' := "http://" + host + SubmitPath, "http://" + host' + SubmitPath;
      assert u == r.url == r'.url == u';
      assert |host| == |host'|;
      assert host == u[7..7 + |host|] == u'[7..7 + |host'|] == host';
      var a, a' := r.form["CertAttrib"], r'.form["CertAttrib"];
      assert a == TemplatePrefix + template + "\r\n" && a' == TemplatePrefix + template' + "\r\n";
      assert |template| == |template'|;
      assert template == a[|TemplatePrefix|..|TemplatePrefix| + |template|];
      assert template' == a'[|TemplatePrefix|..|TemplatePrefix| + |template'|];
    }
  }
}
